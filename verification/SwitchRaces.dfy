/** Which provider a turn runs with when switches come in between, in the interleavings of TurnRaces. */
module SwitchRaces {
  import opened Wrappers
  import opened TurnRaces
  import opened TurnRepeats

  // ----- the provider of a call, and the provider of its conversation -----

  /** The provider that a switch of the conversation sets in this step, if one takes effect. */
  function Chosen(d: Daemon, e: Event, c: string): Option<string> {
    if e.SwitchObserved? && e.ok && IsAt(d, e.s, Observing) && d.switches[e.s].c == c
    then Some(d.switches[e.s].target) else None
  }

  /**
   * What the last switch of the conversation of call `k` chose that took effect since the call was submitted, if any.
   */
  function ChosenSince(p: string -> string, start: Daemon, events: seq<Event>, k: nat): Option<string> {
    if events == [] then None
    else
      var front, e := events[..|events| - 1], events[|events| - 1];
      var d := After(p, start, front);
      if k >= |d.calls| then None
      else if Chosen(d, e, d.calls[k].c).Some? then Chosen(d, e, d.calls[k].c)
      else ChosenSince(p, start, front, k)
  }

  lemma {:induction false} OnlySwitchesChoose(p: string -> string, d: Daemon, e: Event, c: string)
    requires Known(d) && c in d.providers
    ensures c in Step(p, d, e).providers
    ensures Step(p, d, e).providers[c] == if Chosen(d, e, c).Some? then Chosen(d, e, c).value else d.providers[c]
  {
    if !e.SwitchObserved? { OthersChooseNothing(p, d, e); }
  }

  lemma {:induction false} OthersChooseNothing(p: string -> string, d: Daemon, e: Event)
    requires !e.SwitchObserved?
    ensures Step(p, d, e).providers == d.providers
  {
    match e
    case Finalized(k, completes, released) =>
      if At(d, k, Running) || At(d, k, Failing) { FinalizedChoosesNothing(p, d, k, completes, released); }
    case Resumed(stored) => if d.jobs != [] { ResumedChoosesNothing(d, stored); }
    case _ =>
  }

  lemma {:induction false} FinalizedChoosesNothing(
    p: string -> string, d: Daemon, k: nat, completes: bool, released: bool)
    requires k < |d.calls|
    ensures OnFinalized(p, d, k, completes, released).providers == d.providers
  {
  }

  lemma {:induction false} ResumedChoosesNothing(d: Daemon, stored: bool)
    requires d.jobs != []
    ensures OnResumed(d, stored).providers == d.providers
  {
  }

  lemma {:induction false} SubmittedMatches(p: string -> string, d: Daemon, e: Event, k: nat)
    requires |d.calls| <= k < |Step(p, d, e).calls|
    ensures var after := Step(p, d, e); var call := after.calls[k];
      call.c in after.providers && after.providers[call.c] == call.provider
  {
  }

  /** In every run: the conversation's provider is the call's own unless a later switch chose another. */
  lemma {:induction false} ProviderFollows(
    p: string -> string, providers: map<string, string>, events: seq<Event>, k: nat)
    requires k < |After(p, Initial(providers), events).calls|
    ensures var d, since := After(p, Initial(providers), events), ChosenSince(p, Initial(providers), events, k);
      && d.calls[k].c in d.providers
      && d.providers[d.calls[k].c] == if since.Some? then since.value else d.calls[k].provider
  {
    if events != [] {
      var front, e := events[..|events| - 1], events[|events| - 1];
      var d := After(p, Initial(providers), front);
      if k < |d.calls| {
        ProviderFollows(p, providers, front, k);
        EveryRunIsSound(p, providers, front);
        StepMoves(p, d, e, k);
        OnlySwitchesChoose(p, d, e, d.calls[k].c);
      } else {
        SubmittedMatches(p, d, e, k);
      }
    }
  }

  /**
   * In every run a call, under way or not, has the provider of its conversation exactly when no switch of the
   * conversation took effect since it was submitted, or the last one that did chose that provider.
   */
  lemma {:induction false} ProviderMatchesExactly(
    p: string -> string, providers: map<string, string>, events: seq<Event>, k: nat)
    requires k < |After(p, Initial(providers), events).calls|
    ensures var d, since := After(p, Initial(providers), events), ChosenSince(p, Initial(providers), events, k);
      && d.calls[k].c in d.providers
      && (d.calls[k].provider == d.providers[d.calls[k].c] <==> since.None? || since.value == d.calls[k].provider)
  {
    ProviderFollows(p, providers, events, k);
  }

  // ----- turns under way while a switch takes effect -----

  predicate UnderWayIn(p: string -> string, d: Daemon, k: nat, project: string) {
    HoldingAt(d, k) && p(d.calls[k].c) == project
  }

  /**
   * At any moment, that at which a switch takes effect included, a turn of the project is under way exactly when its
   * lease is held by one: the check that a switch makes before it observes the policy, and not again.
   */
  lemma {:induction false} TurnUnderWayExactly(
    p: string -> string, providers: map<string, string>, events: seq<Event>, project: string)
    ensures var d := After(p, Initial(providers), events);
      (exists k :: UnderWayIn(p, d, k, project)) <==> project in d.leases && HoldingAt(d, d.leases[project])
  {
    EveryRunIsSound(p, providers, events);
    HolderIsUnderWay(p, After(p, Initial(providers), events), project);
  }

  lemma {:induction false} HolderIsUnderWay(p: string -> string, d: Daemon, project: string)
    requires Holders(p, d)
    ensures (exists k :: UnderWayIn(p, d, k, project)) <==> project in d.leases && HoldingAt(d, d.leases[project])
  {
    if project in d.leases && HoldingAt(d, d.leases[project]) {
      assert UnderWayIn(p, d, d.leases[project], project);
    }
  }

  /** A switch gets past its checks only while no turn of the project is under way. */
  lemma {:induction false} SwitchStartsIdle(p: string -> string, d: Daemon, s: nat, ok: bool, k: nat)
    requires Sound(p, d) && IsAt(d, s, Asking) && IsAt(Step(p, d, SwitchProbed(s, ok)), s, Observing)
    requires k < |d.calls| && p(d.calls[k].c) == p(d.switches[s].c)
    ensures !HoldingAt(d, k) && !HoldingAt(Step(p, d, SwitchProbed(s, ok)), k)
  {
  }

  lemma {:induction false} OthersLeaseNothing(p: string -> string, d: Daemon, e: Event, k: nat)
    requires At(d, k, Waiting) && !e.Acquired?
    ensures At(Step(p, d, e), k, Waiting)
  {
    match e
    case Finalized(j, completes, released) =>
      if At(d, j, Running) || At(d, j, Failing) { FinalizedCalls(p, d, j, completes, released); }
    case Resumed(stored) => if d.jobs != [] { ResumedCalls(d, stored); }
    case Probed(j, ok) => if At(d, j, Probing) { assert j != k; }
    case Spoke(j) => if At(d, j, Running) { assert j != k; }
    case _ => OthersMoveNothing(p, d, e);
  }

  lemma {:induction false} OnlyLeasingHolds(p: string -> string, d: Daemon, e: Event, k: nat)
    requires !HoldingAt(d, k) && HoldingAt(Step(p, d, e), k)
    ensures e == Acquired(k, true)
  {
    StepMoves(p, d, e, k);
    if !e.Acquired? { OthersLeaseNothing(p, d, e, k); }
  }

  lemma {:induction false} HoldingWasLeased(p: string -> string, d: Daemon, events: seq<Event>, k: nat)
    requires !HoldingAt(d, k) && HoldingAt(After(p, d, events), k)
    ensures Acquired(k, true) in events
  {
    var front, e := events[..|events| - 1], events[|events| - 1];
    if HoldingAt(After(p, d, front), k) {
      HoldingWasLeased(p, d, front, k);
      assert Acquired(k, true) in front;
    } else {
      OnlyLeasingHolds(p, After(p, d, front), e, k);
    }
  }

  /** A turn of the project that is under way once a switch passed its checks got its lease since then. */
  lemma {:induction false} TurnInSwitchCameLater(
    p: string -> string, d: Daemon, s: nat, ok: bool, events: seq<Event>, k: nat)
    requires Sound(p, d) && IsAt(d, s, Asking) && IsAt(Step(p, d, SwitchProbed(s, ok)), s, Observing)
    requires var g := After(p, Step(p, d, SwitchProbed(s, ok)), events);
      HoldingAt(g, k) && p(g.calls[k].c) == p(d.switches[s].c)
    ensures Acquired(k, true) in events
  {
    var probed := Step(p, d, SwitchProbed(s, ok));
    CallsKeepTheirConversation(p, probed, events, k);
    if k < |d.calls| { SwitchStartsIdle(p, d, s, ok, k); }
    HoldingWasLeased(p, probed, events, k);
  }

  lemma {:induction false} CallsKeepTheirConversation(p: string -> string, d: Daemon, events: seq<Event>, k: nat)
    ensures |d.calls| <= |After(p, d, events).calls|
    ensures k < |d.calls| ==> After(p, d, events).calls[k].c == d.calls[k].c
  {
    if events != [] {
      var front := events[..|events| - 1];
      CallsKeepTheirConversation(p, d, front, k);
      if k < |d.calls| { StepMoves(p, After(p, d, front), events[|events| - 1], k); }
    }
  }

  // ----- two runs -----

  /** A turn of codex runs in a conversation that has been switched to claude. */
  ghost predicate RunsOnOldProvider(d: Daemon, c: string) {
    && d.providers == map[c := "claude"] && |d.calls| == 1 && At(d, 0, Running)
    && d.calls[0].c == c && d.calls[0].provider == "codex" && |d.switches| == 1 && IsAt(d, 0, Settled)
  }

  /** The provider changes under a running turn that got its lease after the switch had passed its checks. */
  lemma {:induction false} SwitchedDuringTurn(p: string -> string, c: string, id: string) returns (events: seq<Event>)
    ensures RunsOnOldProvider(After(p, Initial(map[c := "codex"]), events), c)
  {
    var start := Initial(map[c := "codex"]);
    var observing := SwitchPasses(p, start, c);
    var d := start.(switches := [Switch(c, "claude", Observing)]);
    assert After(p, start, observing) == d;
    var waiting := NewcomerWaits(p, d, c, id);
    events := Joined(p, start, observing, waiting);
    var speaking := WaitingSpeaks(p, After(p, d, waiting), 0);
    events := Joined(p, start, events, speaking);
    events := SwitchSettles(p, start, events, c);
  }

  /** The provider changes before the turn begins, but after its call compared providers. */
  lemma {:induction false} SwitchedBeforeTurn(p: string -> string, c: string, id: string) returns (events: seq<Event>)
    ensures RunsOnOldProvider(After(p, Initial(map[c := "codex"]), events), c)
  {
    var start := Initial(map[c := "codex"]);
    var submitted := Then(p, start, [], Submitted(c, id, "codex"));
    var d := start.(calls := [Call(c, id, "codex", Probing, false)]);
    assert After(p, start, submitted) == d;
    var observing := SwitchPasses(p, d, c);
    events := Joined(p, start, submitted, observing);
    events := SwitchSettles(p, start, events, c);
    events := Then(p, start, events, Probed(0, true));
    var waiting := After(p, start, events);
    assert waiting.calls == [Call(c, id, "codex", Waiting, false)];
    var speaking := WaitingSpeaks(p, waiting, 0);
    events := Joined(p, start, events, speaking);
  }

  lemma {:induction false} SwitchPasses(p: string -> string, d: Daemon, c: string) returns (events: seq<Event>)
    requires c in d.providers && c !in d.active && p(c) !in d.leases && d.switches == []
    ensures After(p, d, events) == d.(switches := [Switch(c, "claude", Observing)])
  {
    events := Then(p, d, [], SwitchAsked(c, "claude"));
    assert After(p, d, events) == d.(switches := [Switch(c, "claude", Asking)]);
    events := Then(p, d, events, SwitchProbed(0, true));
  }

  lemma {:induction false} SwitchSettles(p: string -> string, start: Daemon, events: seq<Event>, c: string)
    returns (longer: seq<Event>)
    requires var d := After(p, start, events);
      d.providers == map[c := "codex"] && d.switches == [Switch(c, "claude", Observing)]
    ensures After(p, start, longer) == After(p, start, events).(
      switches := [Switch(c, "claude", Settled)], providers := map[c := "claude"])
  {
    var d := After(p, start, events);
    longer := Then(p, start, events, SwitchObserved(0, true));
    ClaudeIsChosen(d, c);
    assert Step(p, d, SwitchObserved(0, true)) == OnSwitchObserved(d, 0, true);
  }

  lemma {:induction false} ClaudeIsChosen(d: Daemon, c: string)
    requires d.providers == map[c := "codex"] && d.switches == [Switch(c, "claude", Observing)]
    ensures OnSwitchObserved(d, 0, true) ==
      d.(switches := [Switch(c, "claude", Settled)], providers := map[c := "claude"])
  {
    assert d.providers[c := "claude"] == map[c := "claude"];
  }
}
