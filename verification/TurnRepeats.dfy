/** When a message is logged a second time, in the interleavings of TurnRaces. */
module TurnRepeats {
  import opened TurnRaces

  // ----- what one step does to a call -----

  /** How a step may move a call that is already there. */
  predicate Moved(d: Daemon, project: string, x: Call, y: Call) {
    && y.c == x.c && y.id == x.id && y.provider == x.provider && (x.said ==> y.said)
    && (y.stage == Waiting ==> x.stage == Waiting || (x.stage == Probing && (x.c, x.id) !in d.answers))
    && (y.stage == Leased ==> x.stage == Leased || (x.stage == Waiting && project !in d.leases))
    && (y.stage == Running ==> x.stage == Running || x.stage == Leased)
    && (y.stage == Failing ==> x.stage == Failing || x.stage == Running)
  }

  predicate AllMoved(p: string -> string, d: Daemon, after: Daemon) {
    && |after.calls| == |d.calls|
    && forall k | 0 <= k < |d.calls| :: Moved(d, p(d.calls[k].c), d.calls[k], after.calls[k])
  }

  lemma {:induction false} EarlyMoves(p: string -> string, d: Daemon, k: nat, ok: bool)
    requires k < |d.calls|
    ensures d.calls[k].stage == Probing ==> AllMoved(p, d, OnProbed(d, k, ok))
    ensures d.calls[k].stage == Waiting ==> AllMoved(p, d, OnAcquired(p, d, k, ok))
  {
  }

  lemma {:induction false} SpokeMoves(p: string -> string, d: Daemon, k: nat)
    requires At(d, k, Running)
    ensures AllMoved(p, d, OnSpoke(d, k))
  {
  }

  lemma {:induction false} FinalizedCalls(p: string -> string, d: Daemon, k: nat, completes: bool, released: bool)
    requires At(d, k, Running) || At(d, k, Failing)
    ensures var completing := completes && d.calls[k].stage == Running;
      var stage := if completing && !released then Failing else Closing(completing);
      OnFinalized(p, d, k, completes, released).calls ==
        d.calls[k := d.calls[k].(stage := stage, said := completing || d.calls[k].said)]
  {
  }

  lemma {:induction false} FinalizedMoves(p: string -> string, d: Daemon, k: nat, completes: bool, released: bool)
    requires At(d, k, Running) || At(d, k, Failing)
    ensures AllMoved(p, d, OnFinalized(p, d, k, completes, released))
  {
    FinalizedCalls(p, d, k, completes, released);
  }

  /** What becomes of a job. */
  function Next(s: Stage): Stage { if s == Leased then Running else if s.Closing? then Ended else s }

  lemma {:induction false} ResumedCalls(d: Daemon, stored: bool)
    requires d.jobs != []
    ensures var k := d.jobs[0];
      OnResumed(d, stored).calls ==
      if k < |d.calls| then d.calls[k := d.calls[k].(stage := Next(d.calls[k].stage))] else d.calls
  {
  }

  lemma {:induction false} ResumedMoves(p: string -> string, d: Daemon, stored: bool)
    requires d.jobs != []
    ensures AllMoved(p, d, OnResumed(d, stored))
  {
    ResumedCalls(d, stored);
  }

  lemma {:induction false} StepMoves(p: string -> string, d: Daemon, e: Event, k: nat)
    requires k < |Step(p, d, e).calls|
    ensures if k < |d.calls| then Moved(d, p(d.calls[k].c), d.calls[k], Step(p, d, e).calls[k])
            else Step(p, d, e).calls[k].stage == Probing
  {
    match e
    case Probed(j, ok) => if At(d, j, Probing) { EarlyMoves(p, d, j, ok); }
    case Acquired(j, ok) => if At(d, j, Waiting) { EarlyMoves(p, d, j, ok); }
    case Spoke(j) => if At(d, j, Running) { SpokeMoves(p, d, j); }
    case Finalized(j, completes, released) =>
      if At(d, j, Running) || At(d, j, Failing) { FinalizedMoves(p, d, j, completes, released); }
    case Resumed(stored) => if d.jobs != [] { ResumedMoves(p, d, stored); }
    case _ => OthersMoveNothing(p, d, e);
  }

  lemma {:induction false} OthersMoveNothing(p: string -> string, d: Daemon, e: Event)
    requires e.Submitted? || e.SwitchAsked? || e.SwitchProbed? || e.SwitchObserved?
    ensures var after := Step(p, d, e);
      && (forall k | 0 <= k < |d.calls| :: after.calls[k] == d.calls[k])
      && (forall k | |d.calls| <= k < |after.calls| :: after.calls[k].stage == Probing)
  {
  }

  // ----- who can still say a message -----

  /** The project can still be leased: it is free, or whoever holds it may give it back. */
  predicate CanFree(d: Daemon, project: string) {
    project in d.leases ==> HoldingAt(d, d.leases[project])
  }

  /** A call for the message that passed its checks, has not said the message and can come to say it. */
  predicate UnderWay(p: string -> string, d: Daemon, k: nat, c: string, id: string) {
    && k < |d.calls| && d.calls[k].c == c && d.calls[k].id == id && !d.calls[k].said
    && (d.calls[k].stage == Running || d.calls[k].stage == Leased || (d.calls[k].stage == Waiting && CanFree(d, p(c))))
  }

  /** A new call for the message would pass its checks and get the workspace in the end. */
  predicate Welcome(p: string -> string, d: Daemon, c: string, id: string) {
    (c, id) !in d.answers && c in d.providers && CanFree(d, p(c))
  }

  /** Between the two states some call said the message. */
  ghost predicate SaidSince(d: Daemon, e: Daemon, c: string, id: string) {
    exists i | |d.said| <= i < |e.said| ::
      e.said[i] < |e.calls| && e.calls[e.said[i]].c == c && e.calls[e.said[i]].id == id
  }

  /** No call says the message any more. */
  ghost predicate Quiet(p: string -> string, d: Daemon, c: string, id: string) {
    !Welcome(p, d, c, id) && forall k :: !UnderWay(p, d, k, c, id)
  }

  lemma {:induction false} OthersSayNothing(p: string -> string, d: Daemon, e: Event)
    requires !e.Spoke? && !e.Finalized?
    ensures Step(p, d, e).said == d.said
  {
  }

  /** What is said in one step is said by a running call. */
  lemma {:induction false} OnlyRunningSpeak(p: string -> string, d: Daemon, e: Event)
    ensures var after := Step(p, d, e);
      || after.said == d.said
      || ((e.Spoke? || e.Finalized?) && At(d, e.k, Running) && !d.calls[e.k].said && after.said == d.said + [e.k])
  {
    if !e.Spoke? && !e.Finalized? { OthersSayNothing(p, d, e); }
  }

  /** A lease is taken when it is free and given back by a call that holds it. */
  lemma {:induction false} StepLeases(p: string -> string, d: Daemon, e: Event, project: string)
    ensures project in d.leases ==>
      var after := Step(p, d, e);
      || (project in after.leases && after.leases[project] == d.leases[project])
      || (e.Finalized? && (At(d, e.k, Running) || At(d, e.k, Failing)) && p(d.calls[e.k].c) == project)
  {
  }

  /** A lease that nobody can give back stays. */
  lemma {:induction false} StuckStaysStuck(p: string -> string, d: Daemon, e: Event, project: string)
    requires Holders(p, d) && !CanFree(d, project)
    ensures !CanFree(Step(p, d, e), project)
  {
    StepLeases(p, d, e, project);
    StepMoves(p, d, e, d.leases[project]);
  }

  lemma {:induction false} StepKeepsAnswers(p: string -> string, d: Daemon, e: Event, c: string, id: string)
    requires Known(d)
    ensures (c, id) in d.answers ==> (c, id) in Step(p, d, e).answers
    ensures c in Step(p, d, e).providers <==> c in d.providers
  {
  }

  lemma {:induction false} NoNewUnderWay(p: string -> string, d: Daemon, e: Event, k: nat, c: string, id: string)
    requires Sound(p, d) && !Welcome(p, d, c, id) && UnderWay(p, Step(p, d, e), k, c, id)
    ensures UnderWay(p, d, k, c, id)
  {
    StepMoves(p, d, e, k);
    if !CanFree(d, p(c)) { StuckStaysStuck(p, d, e, p(c)); }
  }

  lemma {:induction false} NoNewWelcome(p: string -> string, d: Daemon, e: Event, c: string, id: string)
    requires Sound(p, d) && !Welcome(p, d, c, id)
    ensures !Welcome(p, Step(p, d, e), c, id)
  {
    StepKeepsAnswers(p, d, e, c, id);
    if !CanFree(d, p(c)) { StuckStaysStuck(p, d, e, p(c)); }
  }

  lemma {:induction false} QuietStays(p: string -> string, d: Daemon, e: Event, c: string, id: string)
    requires Sound(p, d) && Quiet(p, d, c, id)
    ensures Quiet(p, Step(p, d, e), c, id) && !SaidSince(d, Step(p, d, e), c, id)
  {
    var after := Step(p, d, e);
    NoNewWelcome(p, d, e, c, id);
    forall k ensures !UnderWay(p, after, k, c, id) {
      if UnderWay(p, after, k, c, id) {
        NoNewUnderWay(p, d, e, k, c, id);
        assert false;
      }
    }
    OnlyRunningSpeak(p, d, e);
    if after.said != d.said {
      StepMoves(p, d, e, e.k);
      assert !UnderWay(p, d, e.k, c, id);
    }
  }

  lemma {:induction false} QuietForever(p: string -> string, d: Daemon, events: seq<Event>, c: string, id: string)
    requires Sound(p, d) && Quiet(p, d, c, id)
    ensures var g := After(p, d, events);
      Sound(p, g) && Quiet(p, g, c, id) && |d.said| <= |g.said| && !SaidSince(d, g, c, id)
  {
    if events != [] {
      var front, e := events[..|events| - 1], events[|events| - 1];
      QuietForever(p, d, front, c, id);
      var before := After(p, d, front);
      StepKeepsSound(p, before, e);
      QuietStays(p, before, e, c, id);
      QuietLonger(p, d, before, e, c, id);
    }
  }

  lemma {:induction false} QuietLonger(p: string -> string, d: Daemon, before: Daemon, e: Event, c: string, id: string)
    requires Sayings(before) && |d.said| <= |before.said| && !SaidSince(d, before, c, id)
    requires !SaidSince(before, Step(p, before, e), c, id)
    ensures |d.said| <= |Step(p, before, e).said| && !SaidSince(d, Step(p, before, e), c, id)
  {
    var g := Step(p, before, e);
    OnlyRunningSpeak(p, before, e);
    forall i | |d.said| <= i < |before.said| && g.said[i] < |g.calls|
      ensures !(g.calls[g.said[i]].c == c && g.calls[g.said[i]].id == id)
    {
      SaidStays(p, before, e, i);
    }
  }

  lemma {:induction false} SaidStays(p: string -> string, d: Daemon, e: Event, i: nat)
    requires Sayings(d) && i < |d.said|
    ensures var g := Step(p, d, e);
      && i < |g.said| && g.said[i] == d.said[i] && g.said[i] < |g.calls|
      && g.calls[g.said[i]].c == d.calls[d.said[i]].c && g.calls[g.said[i]].id == d.calls[d.said[i]].id
  {
    OnlyRunningSpeak(p, d, e);
    StepMoves(p, d, e, d.said[i]);
  }

  // ----- runs -----

  lemma {:induction false} Then(p: string -> string, d: Daemon, events: seq<Event>, e: Event)
    returns (longer: seq<Event>)
    ensures After(p, d, longer) == Step(p, After(p, d, events), e)
    ensures longer == events + [e]
  {
    longer := events + [e];
    assert longer[..|events|] == events;
  }

  lemma {:induction false} Joined(p: string -> string, d: Daemon, a: seq<Event>, b: seq<Event>)
    returns (both: seq<Event>)
    ensures both == a + b && After(p, d, both) == After(p, After(p, d, a), b)
  {
    both := a + b;
    if b == [] {
      assert both == a;
    } else {
      var front := Joined(p, d, a, b[..|b| - 1]);
      assert both[..|both| - 1] == front && both[|both| - 1] == b[|b| - 1];
    }
  }

  /** What a run of jobs leaves alone. */
  ghost predicate SameButJobs(d: Daemon, g: Daemon) {
    && g.jobs == [] && g.said == d.said && g.leases == d.leases && g.answers == d.answers && g.providers == d.providers
    && g.switches == d.switches && |g.calls| == |d.calls|
    && forall k | 0 <= k < |d.calls| :: g.calls[k] == d.calls[k].(stage := Next(d.calls[k].stage))
  }

  /** All jobs go on. */
  lemma {:induction false} JobsDone(p: string -> string, d: Daemon) returns (events: seq<Event>)
    requires Sound(p, d)
    ensures Sound(p, After(p, d, events)) && SameButJobs(d, After(p, d, events))
    decreases |d.jobs|
  {
    events := [];
    if d.jobs == [] {
      assert forall k | 0 <= k < |d.calls| :: !Queued(d.calls[k].stage);
    } else {
      var first := Then(p, d, [], Resumed(false));
      var next := OnResumed(d, false);
      assert After(p, d, first) == next;
      StepKeepsSound(p, d, Resumed(false));
      OneJobDone(d);
      var rest := JobsDone(p, next);
      events := Joined(p, d, first, rest);
      JobsAdd(p, d, next, After(p, next, rest));
    }
  }

  lemma {:induction false} OneJobDone(d: Daemon)
    requires Jobs(d) && d.jobs != []
    ensures var next := OnResumed(d, false);
      && next.jobs == d.jobs[1..] && next.said == d.said && next.leases == d.leases && next.answers == d.answers
      && next.providers == d.providers && next.switches == d.switches
      && next.calls == d.calls[d.jobs[0] := d.calls[d.jobs[0]].(stage := Next(d.calls[d.jobs[0]].stage))]
  {
  }

  lemma {:induction false} JobsAdd(p: string -> string, d: Daemon, next: Daemon, g: Daemon)
    requires Jobs(d) && d.jobs != [] && next == OnResumed(d, false) && SameButJobs(next, g)
    ensures SameButJobs(d, g)
  {
    OneJobDone(d);
    assert forall s: Stage :: s.Leased? || s.Closing? ==> Next(Next(s)) == Next(s);
    forall k | 0 <= k < |d.calls| ensures g.calls[k] == d.calls[k].(stage := Next(d.calls[k].stage)) {
      assert g.calls[k] == next.calls[k].(stage := Next(next.calls[k].stage));
    }
  }

  lemma {:induction false} AfterKeepsSound(p: string -> string, d: Daemon, events: seq<Event>)
    requires Sound(p, d)
    ensures Sound(p, After(p, d, events))
  {
    if events != [] {
      AfterKeepsSound(p, d, events[..|events| - 1]);
      StepKeepsSound(p, After(p, d, events[..|events| - 1]), events[|events| - 1]);
    }
  }

  /** A turn fails, gives its lease back and closes. */
  lemma {:induction false} TurnFails(p: string -> string, d: Daemon, k: nat) returns (events: seq<Event>)
    requires (At(d, k, Running) || At(d, k, Failing)) && d.jobs == []
    ensures After(p, d, events) == d.(
      calls := d.calls[k := d.calls[k].(stage := Ended)], leases := d.leases - {p(d.calls[k].c)},
      active := d.active - {d.calls[k].c})
  {
    events := Then(p, d, [], Finalized(k, false, true));
    var settled := After(p, d, events);
    assert settled == Settle(p, d, k, false, true) && settled.jobs == [k];
    events := Then(p, d, events, Resumed(false));
    var closed := OnClosed(settled.(jobs := []), k, false);
    assert After(p, d, events) == closed;
    assert closed.calls == d.calls[k := d.calls[k].(stage := Ended)];
  }

  /** Whoever holds the lease of the project, and may give it back, does so; nobody else moves. */
  lemma {:induction false} HolderLeaves(p: string -> string, d: Daemon, project: string) returns (events: seq<Event>)
    requires Sound(p, d) && d.jobs == [] && CanFree(d, project)
    ensures var g := After(p, d, events);
      && Sound(p, g) && g.jobs == [] && project !in g.leases && g.said == d.said && |g.calls| == |d.calls|
      && g.answers == d.answers && g.providers == d.providers
      && (forall k | 0 <= k < |d.calls| && d.calls[k].stage == Waiting :: g.calls[k] == d.calls[k])
  {
    events := [];
    if project in d.leases {
      var h := d.leases[project];
      assert p(d.calls[h].c) == project && !Queued(d.calls[h].stage);
      events := TurnFails(p, d, h);
      AfterKeepsSound(p, d, events);
    }
  }

  /** A call that waits and finds the project free goes on to say its message. */
  lemma {:induction false} WaitingSpeaks(p: string -> string, d: Daemon, k: nat) returns (events: seq<Event>)
    requires At(d, k, Waiting) && !d.calls[k].said && p(d.calls[k].c) !in d.leases && d.jobs == []
    ensures var g := After(p, d, events);
      && g.calls == d.calls[k := d.calls[k].(stage := Running, said := true)] && g.said == d.said + [k]
      && g.leases == d.leases[p(d.calls[k].c) := k] && g.answers == d.answers && g.jobs == []
      && g.active == d.active[d.calls[k].c := k] && g.switches == d.switches && g.providers == d.providers
  {
    events := Then(p, d, [], Acquired(k, true));
    var leased := After(p, d, events);
    assert leased == OnAcquired(p, d, k, true) && leased.jobs == [k];
    events := Then(p, d, events, Resumed(true));
    var began := After(p, d, events);
    assert began == OnBegan(leased.(jobs := []), k);
    events := Then(p, d, events, Spoke(k));
  }

  /** A call that waits says its message once the project is freed. */
  lemma {:induction false} WaitingCanSpeak(p: string -> string, d: Daemon, k: nat) returns (events: seq<Event>)
    requires Sound(p, d) && d.jobs == [] && At(d, k, Waiting) && CanFree(d, p(d.calls[k].c))
    ensures var g := After(p, d, events);
      && g.said == d.said + [k] && k < |g.calls| && g.calls[k].c == d.calls[k].c && g.calls[k].id == d.calls[k].id
  {
    var freeing := HolderLeaves(p, d, p(d.calls[k].c));
    var speaking := WaitingSpeaks(p, After(p, d, freeing), k);
    events := Joined(p, d, freeing, speaking);
  }

  /** A call on its way, with no job left, says its message. */
  lemma {:induction false} IdleCanSpeak(p: string -> string, d: Daemon, k: nat) returns (events: seq<Event>)
    requires Sound(p, d) && d.jobs == [] && k < |d.calls| && UnderWay(p, d, k, d.calls[k].c, d.calls[k].id)
    ensures var g := After(p, d, events);
      && g.said == d.said + [k] && k < |g.calls| && g.calls[k].c == d.calls[k].c && g.calls[k].id == d.calls[k].id
  {
    if At(d, k, Running) {
      events := Then(p, d, [], Spoke(k));
    } else {
      assert !Queued(d.calls[k].stage);
      events := WaitingCanSpeak(p, d, k);
    }
  }

  lemma {:induction false} UnderWayAfterJobs(
    p: string -> string, d: Daemon, idle: Daemon, k: nat, c: string, id: string)
    requires SameButJobs(d, idle) && UnderWay(p, d, k, c, id)
    ensures UnderWay(p, idle, k, c, id) && idle.calls[k].c == c && idle.calls[k].id == id
  {
    if CanFree(d, p(c)) { FreeAfterJobs(d, idle, p(c)); }
  }

  lemma {:induction false} UnderWaySpeaks(p: string -> string, d: Daemon, k: nat, c: string, id: string)
    returns (events: seq<Event>)
    requires Sound(p, d) && UnderWay(p, d, k, c, id)
    ensures SaidSince(d, After(p, d, events), c, id)
  {
    var working := JobsDone(p, d);
    var idle := After(p, d, working);
    UnderWayAfterJobs(p, d, idle, k, c, id);
    var speaking := IdleCanSpeak(p, idle, k);
    events := Joined(p, d, working, speaking);
    assert After(p, d, events).said[|d.said|] == k;
  }

  lemma {:induction false} FreeAfterJobs(d: Daemon, idle: Daemon, project: string)
    requires SameButJobs(d, idle) && CanFree(d, project)
    ensures CanFree(idle, project)
  {
  }

  lemma {:induction false} NewcomerSpeaks(p: string -> string, d: Daemon, c: string, id: string)
    returns (events: seq<Event>)
    requires Sound(p, d) && Welcome(p, d, c, id)
    ensures SaidSince(d, After(p, d, events), c, id)
  {
    events := JobsDone(p, d);
    var idle := After(p, d, events);
    FreeAfterJobs(d, idle, p(c));
    var freeing := HolderLeaves(p, idle, p(c));
    var free := After(p, idle, freeing);
    events := Joined(p, d, events, freeing);
    FreeIsUnmarked(p, free, c);
    var waiting := NewcomerWaits(p, free, c, id);
    events := Joined(p, d, events, waiting);
    var speaking := WaitingSpeaks(p, After(p, free, waiting), |free.calls|);
    events := Joined(p, d, events, speaking);
    assert After(p, d, events).said[|d.said|] == |free.calls|;
  }

  lemma {:induction false} FreeIsUnmarked(p: string -> string, d: Daemon, c: string)
    requires Sound(p, d) && d.jobs == [] && p(c) !in d.leases
    ensures c !in d.active
  {
    assert forall k | 0 <= k < |d.calls| :: !Queued(d.calls[k].stage);
  }

  lemma {:induction false} NewcomerWaits(p: string -> string, d: Daemon, c: string, id: string)
    returns (events: seq<Event>)
    requires c in d.providers && c !in d.active && (c, id) !in d.answers
    ensures After(p, d, events) == d.(calls := d.calls + [Call(c, id, d.providers[c], Waiting, false)])
  {
    var n := |d.calls|;
    events := Then(p, d, [], Submitted(c, id, d.providers[c]));
    assert After(p, d, events) == d.(calls := d.calls + [Call(c, id, d.providers[c], Probing, false)]);
    events := Then(p, d, events, Probed(n, true));
    assert After(p, d, events).calls == d.calls + [Call(c, id, d.providers[c], Waiting, false)];
  }

  ghost predicate CanBeSaid(p: string -> string, d: Daemon, c: string, id: string) {
    exists events: seq<Event> :: SaidSince(d, After(p, d, events), c, id)
  }

  /**
   * A message, said before or not, can be logged exactly when a call for it is past its checks and can get the
   * workspace, or when it has no stored answer and a new call can: the answer is looked up before the lease is taken,
   * and a turn that fails stores none.
   */
  lemma {:induction false} SaidAgainExactly(p: string -> string, d: Daemon, c: string, id: string)
    requires Sound(p, d)
    ensures CanBeSaid(p, d, c, id) <==> Welcome(p, d, c, id) || exists k :: UnderWay(p, d, k, c, id)
  {
    if exists k :: UnderWay(p, d, k, c, id) {
      var k :| UnderWay(p, d, k, c, id);
      var events := UnderWaySpeaks(p, d, k, c, id);
    } else if Welcome(p, d, c, id) {
      var events := NewcomerSpeaks(p, d, c, id);
    } else {
      forall events ensures !SaidSince(d, After(p, d, events), c, id) {
        QuietForever(p, d, events, c, id);
      }
    }
  }

  // ----- two runs -----

  /** A running call that said its message is answered and ends. */
  lemma {:induction false} TurnEnds(p: string -> string, d: Daemon, k: nat) returns (events: seq<Event>)
    requires At(d, k, Running) && d.calls[k].said && (d.calls[k].c, d.calls[k].id) !in d.answers && d.jobs == []
    ensures After(p, d, events) == d.(
      calls := d.calls[k := d.calls[k].(stage := Ended)], leases := d.leases - {p(d.calls[k].c)},
      active := d.active - {d.calls[k].c}, answers := d.answers[(d.calls[k].c, d.calls[k].id) := k])
  {
    events := Then(p, d, [], Finalized(k, true, true));
    var settled := After(p, d, events);
    assert settled == Settle(p, d, k, true, true) && settled.jobs == [k];
    events := Then(p, d, events, Resumed(true));
    var closed := OnClosed(settled.(jobs := []), k, true);
    assert After(p, d, events) == closed;
    assert closed.calls == d.calls[k := d.calls[k].(stage := Ended)];
  }

  /** The message of conversation `c` was said by calls 0 and 1, and by no other. */
  ghost predicate SaidTwice(d: Daemon, c: string, id: string) {
    && d.said == [0, 1] && |d.calls| == 2 && d.calls[0].c == d.calls[1].c == c
    && d.calls[0].id == d.calls[1].id == id
  }

  /** Two calls for one message, both past their checks before either is answered: it is logged twice. */
  lemma {:induction false} MessageSaidTwice(p: string -> string, c: string, id: string)
    returns (answered: seq<Event>, events: seq<Event>)
    ensures var d := After(p, Initial(map[c := "codex"]), answered); (c, id) in d.answers && d.said == [0]
    ensures answered <= events && SaidTwice(After(p, Initial(map[c := "codex"]), events), c, id)
  {
    var start := Initial(map[c := "codex"]);
    answered := OneAnswered(p, c, id);
    var again := WaitingSpeaks(p, After(p, start, answered), 1);
    events := Joined(p, start, answered, again);
  }

  lemma {:induction false} OneAnswered(p: string -> string, c: string, id: string) returns (events: seq<Event>)
    ensures var d := After(p, Initial(map[c := "codex"]), events);
      && d.calls == [Call(c, id, "codex", Ended, true), Call(c, id, "codex", Waiting, false)]
      && d.said == [0] && d.leases == map[] && d.jobs == [] && (c, id) in d.answers
  {
    var start := Initial(map[c := "codex"]);
    var waiting := TwoWait(p, c, id);
    var speaking := WaitingSpeaks(p, After(p, start, waiting), 0);
    events := Joined(p, start, waiting, speaking);
    var ending := TurnEnds(p, After(p, start, events), 0);
    events := Joined(p, start, events, ending);
  }

  lemma {:induction false} TwoWait(p: string -> string, c: string, id: string) returns (events: seq<Event>)
    ensures After(p, Initial(map[c := "codex"]), events) ==
      Initial(map[c := "codex"]).(calls := [Call(c, id, "codex", Waiting, false), Call(c, id, "codex", Waiting, false)])
  {
    var start := Initial(map[c := "codex"]);
    var first := NewcomerWaits(p, start, c, id);
    var one := start.(calls := [Call(c, id, "codex", Waiting, false)]);
    assert After(p, start, first) == one;
    var second := NewcomerWaits(p, one, c, id);
    events := Joined(p, start, first, second);
  }

  /**
   * A turn that fails after its message was logged stores no answer: the message is logged again when it is sent
   * again.
   */
  lemma {:induction false} FailedMessageSaidAgain(p: string -> string, c: string, id: string)
    returns (failed: seq<Event>, events: seq<Event>)
    ensures var d := After(p, Initial(map[c := "codex"]), failed); d.answers == map[] && d.said == [0]
    ensures failed <= events && SaidTwice(After(p, Initial(map[c := "codex"]), events), c, id)
  {
    var start := Initial(map[c := "codex"]);
    var waiting := NewcomerWaits(p, start, c, id);
    var speaking := WaitingSpeaks(p, After(p, start, waiting), 0);
    failed := Joined(p, start, waiting, speaking);
    var ending := TurnFails(p, After(p, start, failed), 0);
    failed := Joined(p, start, failed, ending);
    var d := After(p, start, failed);
    var newcomer := NewcomerWaits(p, d, c, id);
    events := Joined(p, start, failed, newcomer);
    var again := WaitingSpeaks(p, After(p, start, events), 1);
    events := Joined(p, start, events, again);
  }
}
