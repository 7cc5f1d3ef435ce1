/** Submitting and switching as they interleave: one step for each stretch between two awaits. */
module TurnRaces {
  // What a turn logs beside the user's message is in TurnLog.

  /** Waiting is past the checks for an active turn and a stored answer; Failing tries to give the lease back. */
  datatype Stage = Probing | Waiting | Leased | Running | Failing | Closing(completed: bool) | Ended

  /** One call of submitMessage; `said` tells that it logged its user message. */
  datatype Call = Call(c: string, id: string, provider: string, stage: Stage, said: bool)

  datatype SwitchStage = Asking | Observing | Settled

  datatype Switch = Switch(c: string, target: string, stage: SwitchStage)

  /**
   * By conversation, by project and by message: the active provider, the active turn, the lease and the answer. `jobs`
   * are the calls whose awaited workspace call has just settled; they go on in this order.
   */
  datatype Daemon = Daemon(
    providers: map<string, string>, active: map<string, nat>, leases: map<string, nat>,
    answers: map<(string, string), nat>, said: seq<nat>, calls: seq<Call>, switches: seq<Switch>, jobs: seq<nat>)

  /** Resumed is the next job; `stored` tells whether an answer due then can be stored. */
  datatype Event =
    | Submitted(c: string, id: string, provider: string)
    | Probed(k: nat, ok: bool)
    | Acquired(k: nat, ok: bool)
    | Spoke(k: nat)
    | Finalized(k: nat, completes: bool, released: bool)
    | Resumed(stored: bool)
    | SwitchAsked(c: string, target: string)
    | SwitchProbed(s: nat, ok: bool)
    | SwitchObserved(s: nat, ok: bool)

  predicate At(d: Daemon, k: nat, stage: Stage) { k < |d.calls| && d.calls[k].stage == stage }

  predicate IsClosing(d: Daemon, k: nat) { k < |d.calls| && d.calls[k].stage.Closing? }

  function Move(d: Daemon, k: nat, stage: Stage): (after: Daemon)
    requires k < |d.calls|
    ensures |after.calls| == |d.calls|
  {
    d.(calls := d.calls[k := d.calls[k].(stage := stage)])
  }

  function OnSubmit(d: Daemon, c: string, id: string, provider: string): Daemon {
    if c in d.providers && d.providers[c] == provider
    then d.(calls := d.calls + [Call(c, id, provider, Probing, false)]) else d
  }

  /** The checks for an active turn and for a stored answer. */
  function OnProbed(d: Daemon, k: nat, ok: bool): (after: Daemon)
    requires k < |d.calls|
    ensures |after.calls| == |d.calls|
  {
    var call := d.calls[k];
    Move(d, k, if !ok || call.c in d.active || (call.c, call.id) in d.answers then Ended else Waiting)
  }

  /** The workspace lease, which conflicts with any other of the same project, stale ones included. */
  function OnAcquired(p: string -> string, d: Daemon, k: nat, ok: bool): (after: Daemon)
    requires k < |d.calls|
    ensures |after.calls| == |d.calls|
  {
    var project := p(d.calls[k].c);
    if !ok || project in d.leases then Move(d, k, Ended)
    else Move(d, k, Leased).(leases := d.leases[project := k], jobs := d.jobs + [k])
  }

  function OnSpoke(d: Daemon, k: nat): (after: Daemon)
    requires k < |d.calls|
    ensures |after.calls| == |d.calls|
  {
    if d.calls[k].said then d else d.(calls := d.calls[k := d.calls[k].(said := true)], said := d.said + [k])
  }

  /** The turn settles with or without its lease given back. */
  function Settle(p: string -> string, d: Daemon, k: nat, completed: bool, released: bool): (after: Daemon)
    requires k < |d.calls|
    ensures |after.calls| == |d.calls|
  {
    Move(d, k, Closing(completed)).(
      jobs := d.jobs + [k], leases := if released then d.leases - {p(d.calls[k].c)} else d.leases)
  }

  /** The end of the stream, and giving the lease back, which is tried again when a completed turn could not do it. */
  function OnFinalized(p: string -> string, d: Daemon, k: nat, completes: bool, released: bool): (after: Daemon)
    requires k < |d.calls|
    ensures |after.calls| == |d.calls|
  {
    if !completes || d.calls[k].stage == Failing then Settle(p, d, k, false, released)
    else if released then Settle(p, OnSpoke(d, k), k, true, true)
    else Move(OnSpoke(d, k), k, Failing)
  }

  function OnBegan(d: Daemon, k: nat): (after: Daemon)
    requires k < |d.calls|
    ensures |after.calls| == |d.calls|
  {
    Move(d, k, Running).(active := d.active[d.calls[k].c := k])
  }

  /** The answer is stored once; the mark goes by conversation, whoever set it. */
  function OnClosed(d: Daemon, k: nat, stored: bool): (after: Daemon)
    requires IsClosing(d, k)
    ensures |after.calls| == |d.calls|
  {
    var call := d.calls[k];
    var key := (call.c, call.id);
    var answers := if call.stage.completed && stored && key !in d.answers then d.answers[key := k] else d.answers;
    Move(d, k, Ended).(active := d.active - {call.c}, answers := answers)
  }

  /** The next job: a call that got its lease begins its turn, one that gave it back closes. */
  function OnResumed(d: Daemon, stored: bool): (after: Daemon)
    requires d.jobs != []
    ensures |after.calls| == |d.calls|
  {
    var k, rest := d.jobs[0], d.(jobs := d.jobs[1..]);
    if At(rest, k, Leased) then OnBegan(rest, k) else if IsClosing(rest, k) then OnClosed(rest, k, stored) else rest
  }

  function OnSwitchProbed(p: string -> string, d: Daemon, s: nat, ok: bool): Daemon
    requires s < |d.switches|
  {
    var next := if ok && p(d.switches[s].c) !in d.leases then Observing else Settled;
    d.(switches := d.switches[s := d.switches[s].(stage := next)])
  }

  function OnSwitchObserved(d: Daemon, s: nat, ok: bool): Daemon
    requires s < |d.switches|
  {
    var providers := if ok then d.providers[d.switches[s].c := d.switches[s].target] else d.providers;
    d.(switches := d.switches[s := d.switches[s].(stage := Settled)], providers := providers)
  }

  predicate IsAt(d: Daemon, s: nat, stage: SwitchStage) { s < |d.switches| && d.switches[s].stage == stage }

  function Step(p: string -> string, d: Daemon, e: Event): (after: Daemon)
    ensures |d.calls| <= |after.calls|
  {
    match e
    case Submitted(c, id, provider) => OnSubmit(d, c, id, provider)
    case Probed(k, ok) => if At(d, k, Probing) then OnProbed(d, k, ok) else d
    case Acquired(k, ok) => if At(d, k, Waiting) then OnAcquired(p, d, k, ok) else d
    case Spoke(k) => if At(d, k, Running) then OnSpoke(d, k) else d
    case Finalized(k, completes, released) =>
      if At(d, k, Running) || At(d, k, Failing) then OnFinalized(p, d, k, completes, released) else d
    case Resumed(stored) => if d.jobs != [] then OnResumed(d, stored) else d
    case SwitchAsked(c, target) =>
      if c in d.active || c !in d.providers then d else d.(switches := d.switches + [Switch(c, target, Asking)])
    case SwitchProbed(s, ok) => if IsAt(d, s, Asking) then OnSwitchProbed(p, d, s, ok) else d
    case SwitchObserved(s, ok) => if IsAt(d, s, Observing) then OnSwitchObserved(d, s, ok) else d
  }

  function After(p: string -> string, d: Daemon, events: seq<Event>): Daemon {
    if events == [] then d else Step(p, After(p, d, events[..|events| - 1]), events[|events| - 1])
  }

  function Initial(providers: map<string, string>): Daemon {
    Daemon(providers, map[], map[], map[], [], [], [], [])
  }

  // ----- every run -----

  predicate Holding(s: Stage) { s == Leased || s == Running || s == Failing }

  predicate HoldingAt(d: Daemon, k: nat) { k < |d.calls| && Holding(d.calls[k].stage) }

  /** The turn began and has not closed. */
  predicate Begun(s: Stage) { s == Running || s == Failing || s.Closing? }

  predicate Queued(s: Stage) { s == Leased || s.Closing? }

  /** Whoever is under way holds the lease of its project. */
  ghost predicate Holders(p: string -> string, d: Daemon) {
    && (forall k | 0 <= k < |d.calls| && Holding(d.calls[k].stage) ::
          p(d.calls[k].c) in d.leases && d.leases[p(d.calls[k].c)] == k)
    && (forall project | project in d.leases ::
          && d.leases[project] < |d.calls| && p(d.calls[d.leases[project]].c) == project
          && (Holding(d.calls[d.leases[project]].stage) || d.calls[d.leases[project]].stage == Closing(false)
              || d.calls[d.leases[project]].stage == Ended))
  }

  /** The jobs are the calls that got their lease or settled, each once. */
  ghost predicate Jobs(d: Daemon) {
    && (forall i | 0 <= i < |d.jobs| :: d.jobs[i] < |d.calls| && Queued(d.calls[d.jobs[i]].stage))
    && (forall i, j | 0 <= i < j < |d.jobs| :: d.jobs[i] != d.jobs[j])
    && (forall k | 0 <= k < |d.calls| && Queued(d.calls[k].stage) :: k in d.jobs)
  }

  /** Of one project, a turn that has to close goes on before the one that got the lease after it. */
  predicate InTurn(p: string -> string, d: Daemon, i: nat, j: nat) {
    i < j < |d.jobs| && d.jobs[i] < |d.calls| && d.jobs[j] < |d.calls|
    && p(d.calls[d.jobs[i]].c) == p(d.calls[d.jobs[j]].c) ==>
      d.calls[d.jobs[i]].stage.Closing? && d.calls[d.jobs[j]].stage == Leased
  }

  /** No turn runs while another one of its project has to close. */
  predicate Apart(p: string -> string, d: Daemon, k: nat, j: nat) {
    k < |d.calls| && IsClosing(d, j) && (At(d, k, Running) || At(d, k, Failing)) ==>
      p(d.calls[k].c) != p(d.calls[j].c)
  }

  ghost predicate Turns(p: string -> string, d: Daemon) {
    (forall i: nat, j: nat :: InTurn(p, d, i, j)) && (forall k: nat, j: nat :: Apart(p, d, k, j))
  }

  /** The marks are exactly those of the turns that began and have not closed. */
  ghost predicate Marks(d: Daemon) {
    && (forall c | c in d.active ::
          d.active[c] < |d.calls| && d.calls[d.active[c]].c == c && Begun(d.calls[d.active[c]].stage))
    && (forall k | 0 <= k < |d.calls| && Begun(d.calls[k].stage) ::
          d.calls[k].c in d.active && d.active[d.calls[k].c] == k)
  }

  /** Each call says its message once, after it began; a stored answer is of a call that said it and ended. */
  ghost predicate Sayings(d: Daemon) {
    && (forall i | 0 <= i < |d.said| :: d.said[i] < |d.calls| && d.calls[d.said[i]].said)
    && (forall i, j | 0 <= i < j < |d.said| :: d.said[i] != d.said[j])
    && (forall k | 0 <= k < |d.calls| && d.calls[k].said ::
          d.calls[k].stage != Probing && d.calls[k].stage != Waiting && d.calls[k].stage != Leased)
    && (forall k | 0 <= k < |d.calls| && (d.calls[k].stage == Failing || d.calls[k].stage == Closing(true)) ::
          d.calls[k].said)
    && (forall key | key in d.answers ::
          && d.answers[key] < |d.calls| && key == (d.calls[d.answers[key]].c, d.calls[d.answers[key]].id)
          && d.calls[d.answers[key]].said && d.calls[d.answers[key]].stage == Ended)
  }

  /** Calls and switches are of known conversations. */
  ghost predicate Known(d: Daemon) {
    && (forall k | 0 <= k < |d.calls| :: d.calls[k].c in d.providers)
    && (forall s | 0 <= s < |d.switches| :: d.switches[s].c in d.providers)
  }

  ghost predicate Placed(p: string -> string, d: Daemon) { Holders(p, d) && Jobs(d) && Turns(p, d) && Marks(d) }

  ghost predicate Sound(p: string -> string, d: Daemon) { Placed(p, d) && Sayings(d) && Known(d) }

  // ----- steps that leave leases, jobs and marks alone -----

  /** A stage that plays no part in leases, jobs and marks. */
  predicate Idle(s: Stage) { s == Probing || s == Waiting || s == Ended }

  ghost predicate SamePlaces(d: Daemon, after: Daemon) {
    && after.leases == d.leases && after.active == d.active && after.jobs == d.jobs && |d.calls| <= |after.calls|
    && (forall k | 0 <= k < |d.calls| :: after.calls[k].c == d.calls[k].c
          && (after.calls[k].stage == d.calls[k].stage || (Idle(d.calls[k].stage) && Idle(after.calls[k].stage))))
    && (forall k | |d.calls| <= k < |after.calls| :: Idle(after.calls[k].stage))
  }

  lemma {:induction false} SameHolders(p: string -> string, d: Daemon, after: Daemon)
    requires Holders(p, d) && SamePlaces(d, after)
    requires forall project | project in d.leases && d.leases[project] < |d.calls| ::
      after.calls[d.leases[project]].stage == d.calls[d.leases[project]].stage
    ensures Holders(p, after)
  {
  }

  lemma {:induction false} SameJobs(d: Daemon, after: Daemon)
    requires Jobs(d) && SamePlaces(d, after)
    ensures Jobs(after)
  {
    forall k | 0 <= k < |after.calls| && Queued(after.calls[k].stage) ensures k in after.jobs {
      assert k < |d.calls| && Queued(d.calls[k].stage);
    }
  }

  lemma {:induction false} SameTurns(p: string -> string, d: Daemon, after: Daemon)
    requires Jobs(d) && Turns(p, d) && SamePlaces(d, after)
    ensures Turns(p, after)
  {
    forall i: nat, j: nat ensures InTurn(p, after, i, j) { assert InTurn(p, d, i, j); }
    forall k: nat, j: nat ensures Apart(p, after, k, j) { assert Apart(p, d, k, j); }
  }

  lemma {:induction false} SameMarks(d: Daemon, after: Daemon)
    requires Marks(d) && SamePlaces(d, after)
    ensures Marks(after)
  {
  }

  lemma {:induction false} SamePlacesKeepPlaced(p: string -> string, d: Daemon, after: Daemon)
    requires Placed(p, d) && SamePlaces(d, after)
    requires forall project | project in d.leases && d.leases[project] < |d.calls| ::
      after.calls[d.leases[project]].stage == d.calls[d.leases[project]].stage
    ensures Placed(p, after)
  {
    SameHolders(p, d, after);
    SameJobs(d, after);
    SameTurns(p, d, after);
    SameMarks(d, after);
  }

  lemma {:induction false} SubmitKeepsSound(p: string -> string, d: Daemon, c: string, id: string, provider: string)
    requires Sound(p, d)
    ensures Sound(p, OnSubmit(d, c, id, provider))
  {
    SamePlacesKeepPlaced(p, d, OnSubmit(d, c, id, provider));
    SubmitKeepsSayings(d, c, id, provider);
  }

  lemma {:induction false} SubmitKeepsSayings(d: Daemon, c: string, id: string, provider: string)
    requires Sayings(d) && Known(d)
    ensures Sayings(OnSubmit(d, c, id, provider)) && Known(OnSubmit(d, c, id, provider))
  {
  }

  /** Moving a call that neither holds a lease nor is about to. */
  lemma {:induction false} EarlyMoveKeepsSound(p: string -> string, d: Daemon, k: nat, stage: Stage)
    requires Sound(p, d) && (At(d, k, Probing) || At(d, k, Waiting)) && (stage == Waiting || stage == Ended)
    ensures Sound(p, Move(d, k, stage))
  {
    SamePlacesKeepPlaced(p, d, Move(d, k, stage));
    MoveKeepsSayings(d, k, stage);
  }

  lemma {:induction false} MoveKeepsSayings(d: Daemon, k: nat, stage: Stage)
    requires Sayings(d) && Known(d) && k < |d.calls| && d.calls[k].stage != Ended
    requires stage == Failing || stage == Closing(true) ==> d.calls[k].said
    requires stage == Probing || stage == Waiting || stage == Leased ==> !d.calls[k].said
    ensures Sayings(Move(d, k, stage)) && Known(Move(d, k, stage))
  {
  }

  lemma {:induction false} SpokeKeepsSayings(d: Daemon, k: nat)
    requires Sayings(d) && Known(d) && At(d, k, Running)
    ensures Sayings(OnSpoke(d, k)) && Known(OnSpoke(d, k))
  {
    if !d.calls[k].said {
      assert forall i | 0 <= i < |d.said| :: d.said[i] != k;
    }
  }

  lemma {:induction false} SpokeKeepsSound(p: string -> string, d: Daemon, k: nat)
    requires Sound(p, d) && At(d, k, Running)
    ensures Sound(p, OnSpoke(d, k)) && At(OnSpoke(d, k), k, Running) && OnSpoke(d, k).calls[k].said
  {
    SpokeKeepsSayings(d, k);
    SpokeKeepsPlaces(d, k);
    SamePlacesKeepPlaced(p, d, OnSpoke(d, k));
  }

  lemma {:induction false} SpokeKeepsPlaces(d: Daemon, k: nat)
    requires At(d, k, Running)
    ensures SamePlaces(d, OnSpoke(d, k)) && At(OnSpoke(d, k), k, Running) && OnSpoke(d, k).calls[k].said
    ensures forall j | 0 <= j < |d.calls| :: OnSpoke(d, k).calls[j].stage == d.calls[j].stage
  {
  }

  lemma {:induction false} OthersKeepSound(p: string -> string, d: Daemon, after: Daemon)
    requires Sound(p, d) && after == d.(switches := after.switches, providers := after.providers)
    requires Known(after)
    ensures Sound(p, after)
  {
    SamePlacesKeepPlaced(p, d, after);
  }

  lemma {:induction false} SwitchingKeepsSound(p: string -> string, d: Daemon, e: Event)
    requires Sound(p, d) && (e.SwitchAsked? || e.SwitchProbed? || e.SwitchObserved?)
    ensures Sound(p, Step(p, d, e))
  {
    var after := Step(p, d, e);
    SwitchingIsKnown(p, d, e);
    OthersKeepSound(p, d, after);
  }

  lemma {:induction false} SwitchingIsKnown(p: string -> string, d: Daemon, e: Event)
    requires Known(d) && (e.SwitchAsked? || e.SwitchProbed? || e.SwitchObserved?)
    ensures Known(Step(p, d, e))
    ensures Step(p, d, e) == d.(switches := Step(p, d, e).switches, providers := Step(p, d, e).providers)
  {
  }

  // ----- getting the lease, and giving it back -----

  lemma {:induction false} LongerJobs(d: Daemon, after: Daemon, k: nat, stage: Stage)
    requires Jobs(d) && k < |d.calls| && !Queued(d.calls[k].stage) && Queued(stage)
    requires after.jobs == d.jobs + [k] && after.calls == d.calls[k := d.calls[k].(stage := stage)]
    ensures Jobs(after)
  {
    assert forall i | 0 <= i < |d.jobs| :: d.jobs[i] != k && after.jobs[i] == d.jobs[i];
    forall j | 0 <= j < |after.calls| && Queued(after.calls[j].stage) ensures j in after.jobs {
      if j == k { assert after.jobs[|d.jobs|] == k; } else { assert j in d.jobs; }
    }
  }

  lemma {:induction false} LongerTurns(p: string -> string, d: Daemon, after: Daemon, k: nat, stage: Stage)
    requires Jobs(d) && Turns(p, d) && k < |d.calls| && !Queued(d.calls[k].stage) && Queued(stage)
    requires after.jobs == d.jobs + [k] && after.calls == d.calls[k := d.calls[k].(stage := stage)]
    requires forall i | 0 <= i < |d.jobs| && p(d.calls[d.jobs[i]].c) == p(d.calls[k].c) ::
      stage == Leased && d.calls[d.jobs[i]].stage.Closing?
    requires forall j | 0 <= j < |d.calls| && j != k && (At(d, j, Running) || At(d, j, Failing)) ::
      p(d.calls[j].c) != p(d.calls[k].c)
    ensures Turns(p, after)
  {
    assert forall i | 0 <= i < |d.jobs| :: d.jobs[i] != k && after.jobs[i] == d.jobs[i];
    forall i: nat, j: nat ensures InTurn(p, after, i, j) { assert InTurn(p, d, i, j); }
    forall i: nat, j: nat ensures Apart(p, after, i, j) { assert Apart(p, d, i, j); }
  }

  lemma {:induction false} AcquiredKeepsHolders(p: string -> string, d: Daemon, k: nat)
    requires Holders(p, d) && Marks(d) && At(d, k, Waiting) && p(d.calls[k].c) !in d.leases
    ensures Holders(p, OnAcquired(p, d, k, true)) && Marks(OnAcquired(p, d, k, true))
  {
  }

  lemma {:induction false} AcquiredKeepsTurns(p: string -> string, d: Daemon, k: nat)
    requires Holders(p, d) && Jobs(d) && Turns(p, d) && At(d, k, Waiting) && p(d.calls[k].c) !in d.leases
    ensures Jobs(OnAcquired(p, d, k, true)) && Turns(p, OnAcquired(p, d, k, true))
  {
    var after := OnAcquired(p, d, k, true);
    LongerJobs(d, after, k, Leased);
    LongerTurns(p, d, after, k, Leased);
  }

  lemma {:induction false} AcquiredKeepsSound(p: string -> string, d: Daemon, k: nat)
    requires Sound(p, d) && At(d, k, Waiting) && p(d.calls[k].c) !in d.leases
    ensures Sound(p, OnAcquired(p, d, k, true))
  {
    AcquiredKeepsHolders(p, d, k);
    AcquiredKeepsTurns(p, d, k);
    MoveKeepsSayings(d, k, Leased);
    SameSayings(Move(d, k, Leased), OnAcquired(p, d, k, true));
  }

  lemma {:induction false} SameSayings(d: Daemon, after: Daemon)
    requires Sayings(d) && Known(d)
    requires after.calls == d.calls && after.said == d.said && after.answers == d.answers
    requires after.switches == d.switches && after.providers == d.providers
    ensures Sayings(after) && Known(after)
  {
  }

  lemma {:induction false} SettledKeepsHolders(p: string -> string, d: Daemon, k: nat, completed: bool, released: bool)
    requires Holders(p, d) && (At(d, k, Running) || At(d, k, Failing)) && (completed ==> released)
    ensures Holders(p, Settle(p, d, k, completed, released))
  {
  }

  lemma {:induction false} SettledKeepsMarks(p: string -> string, d: Daemon, k: nat, completed: bool, released: bool)
    requires Marks(d) && (At(d, k, Running) || At(d, k, Failing))
    ensures Marks(Settle(p, d, k, completed, released))
  {
  }

  /** When a turn settles no job of its project is queued. */
  lemma {:induction false} SettledKeepsTurns(p: string -> string, d: Daemon, k: nat, completed: bool, released: bool)
    requires Holders(p, d) && Jobs(d) && Turns(p, d) && (At(d, k, Running) || At(d, k, Failing))
    ensures Jobs(Settle(p, d, k, completed, released)) && Turns(p, Settle(p, d, k, completed, released))
  {
    var after := Settle(p, d, k, completed, released);
    LongerJobs(d, after, k, Closing(completed));
    forall i | 0 <= i < |d.jobs| ensures p(d.calls[d.jobs[i]].c) != p(d.calls[k].c) {
      assert Apart(p, d, k, d.jobs[i]);
    }
    LongerTurns(p, d, after, k, Closing(completed));
  }

  lemma {:induction false} SettledKeepsSound(p: string -> string, d: Daemon, k: nat, completed: bool, released: bool)
    requires Sound(p, d) && (At(d, k, Running) || At(d, k, Failing)) && (completed ==> released && d.calls[k].said)
    ensures Sound(p, Settle(p, d, k, completed, released))
  {
    SettledKeepsHolders(p, d, k, completed, released);
    SettledKeepsMarks(p, d, k, completed, released);
    SettledKeepsTurns(p, d, k, completed, released);
    MoveKeepsSayings(d, k, Closing(completed));
    SameSayings(Move(d, k, Closing(completed)), Settle(p, d, k, completed, released));
  }

  lemma {:induction false} StuckKeepsPlaced(p: string -> string, d: Daemon, k: nat)
    requires Placed(p, d) && At(d, k, Running)
    ensures Placed(p, Move(d, k, Failing))
  {
    var after := Move(d, k, Failing);
    StuckKeepsHolders(p, d, k);
    StuckKeepsMarks(d, k);
    forall i: nat, j: nat ensures InTurn(p, after, i, j) { assert InTurn(p, d, i, j); }
    forall i: nat, j: nat ensures Apart(p, after, i, j) { assert Apart(p, d, i, j); }
  }

  lemma {:induction false} StuckKeepsHolders(p: string -> string, d: Daemon, k: nat)
    requires Holders(p, d) && At(d, k, Running)
    ensures Holders(p, Move(d, k, Failing))
  {
  }

  lemma {:induction false} StuckKeepsMarks(d: Daemon, k: nat)
    requires Jobs(d) && Marks(d) && At(d, k, Running)
    ensures Jobs(Move(d, k, Failing)) && Marks(Move(d, k, Failing))
  {
  }

  lemma {:induction false} FinalizedKeepsSound(p: string -> string, d: Daemon, k: nat, completes: bool, released: bool)
    requires Sound(p, d) && (At(d, k, Running) || At(d, k, Failing))
    ensures Sound(p, OnFinalized(p, d, k, completes, released))
  {
    if !completes || d.calls[k].stage == Failing {
      SettledKeepsSound(p, d, k, false, released);
    } else {
      SpokeKeepsSound(p, d, k);
      var spoke := OnSpoke(d, k);
      if released {
        SettledKeepsSound(p, spoke, k, true, true);
      } else {
        StuckKeepsPlaced(p, spoke, k);
        MoveKeepsSayings(spoke, k, Failing);
      }
    }
  }

  // ----- the next job -----

  /** A job that begins is the only one of its project: none is left to close, and none runs. */
  lemma {:induction false} BeginnerIsAlone(p: string -> string, d: Daemon, j: nat)
    requires Placed(p, d) && d.jobs != [] && At(d, d.jobs[0], Leased)
    requires j < |d.calls| && j != d.jobs[0] && p(d.calls[j].c) == p(d.calls[d.jobs[0]].c)
    ensures !Holding(d.calls[j].stage) && !IsClosing(d, j)
  {
    forall i: nat | 0 < i < |d.jobs| ensures p(d.calls[d.jobs[i]].c) != p(d.calls[d.jobs[0]].c) {
      assert InTurn(p, d, 0, i);
    }
  }

  ghost predicate NextJobDone(d: Daemon, after: Daemon) {
    && d.jobs != [] && d.jobs[0] < |d.calls| && after.jobs == d.jobs[1..] && |after.calls| == |d.calls|
    && (forall k | 0 <= k < |d.calls| && k != d.jobs[0] :: after.calls[k] == d.calls[k])
    && after.calls[d.jobs[0]].c == d.calls[d.jobs[0]].c && !Queued(after.calls[d.jobs[0]].stage)
  }

  lemma {:induction false} ShorterJobs(d: Daemon, after: Daemon)
    requires Jobs(d) && NextJobDone(d, after)
    ensures Jobs(after)
  {
    forall k | 0 <= k < |after.calls| && Queued(after.calls[k].stage) ensures k in after.jobs {
      assert k in d.jobs;
      var i :| 0 <= i < |d.jobs| && d.jobs[i] == k;
      assert after.jobs[i - 1] == k;
    }
  }

  lemma {:induction false} ShorterTurns(p: string -> string, d: Daemon, after: Daemon)
    requires Jobs(d) && Turns(p, d) && NextJobDone(d, after)
    requires Begun(after.calls[d.jobs[0]].stage) ==> forall j | 0 <= j < |d.calls| && IsClosing(d, j) ::
      p(d.calls[j].c) != p(d.calls[d.jobs[0]].c)
    ensures Turns(p, after)
  {
    forall i: nat, j: nat ensures InTurn(p, after, i, j) { assert InTurn(p, d, i + 1, j + 1); }
    forall i: nat, j: nat ensures Apart(p, after, i, j) { assert Apart(p, d, i, j); }
  }

  lemma {:induction false} BeganKeepsPlaced(p: string -> string, d: Daemon, after: Daemon)
    requires Placed(p, d) && d.jobs != [] && At(d, d.jobs[0], Leased)
    requires after == OnBegan(d.(jobs := d.jobs[1..]), d.jobs[0])
    ensures Placed(p, after)
  {
    forall j: nat | j < |d.calls| && j != d.jobs[0] && p(d.calls[j].c) == p(d.calls[d.jobs[0]].c)
      ensures !Holding(d.calls[j].stage) && !IsClosing(d, j)
    {
      BeginnerIsAlone(p, d, j);
    }
    ShorterJobs(d, after);
    ShorterTurns(p, d, after);
    BeganKeepsHolders(p, d, after);
    BeganKeepsMarks(p, d, after);
  }

  lemma {:induction false} BeganKeepsHolders(p: string -> string, d: Daemon, after: Daemon)
    requires Holders(p, d) && d.jobs != [] && At(d, d.jobs[0], Leased)
    requires after == OnBegan(d.(jobs := d.jobs[1..]), d.jobs[0])
    ensures Holders(p, after)
  {
  }

  lemma {:induction false} BeganKeepsMarks(p: string -> string, d: Daemon, after: Daemon)
    requires Marks(d) && d.jobs != [] && At(d, d.jobs[0], Leased)
    requires forall j | 0 <= j < |d.calls| && j != d.jobs[0] && p(d.calls[j].c) == p(d.calls[d.jobs[0]].c) ::
      !Holding(d.calls[j].stage) && !IsClosing(d, j)
    requires after == OnBegan(d.(jobs := d.jobs[1..]), d.jobs[0])
    ensures Marks(after)
  {
  }

  lemma {:induction false} ClosedKeepsPlaced(p: string -> string, d: Daemon, after: Daemon, stored: bool)
    requires Placed(p, d) && d.jobs != [] && IsClosing(d, d.jobs[0])
    requires after == OnClosed(d.(jobs := d.jobs[1..]), d.jobs[0], stored)
    ensures Placed(p, after)
  {
    ShorterJobs(d, after);
    ShorterTurns(p, d, after);
    ClosedKeepsHolders(p, d, after, stored);
    ClosedKeepsMarks(d, after, stored);
  }

  lemma {:induction false} ClosedKeepsHolders(p: string -> string, d: Daemon, after: Daemon, stored: bool)
    requires Holders(p, d) && d.jobs != [] && IsClosing(d, d.jobs[0])
    requires after == OnClosed(d.(jobs := d.jobs[1..]), d.jobs[0], stored)
    ensures Holders(p, after)
  {
  }

  lemma {:induction false} ClosedKeepsMarks(d: Daemon, after: Daemon, stored: bool)
    requires Marks(d) && d.jobs != [] && IsClosing(d, d.jobs[0])
    requires after == OnClosed(d.(jobs := d.jobs[1..]), d.jobs[0], stored)
    ensures Marks(after)
  {
  }

  lemma {:induction false} ClosedKeepsSayings(d: Daemon, after: Daemon, stored: bool)
    requires Sayings(d) && Known(d) && d.jobs != [] && IsClosing(d, d.jobs[0])
    requires after == OnClosed(d.(jobs := d.jobs[1..]), d.jobs[0], stored)
    ensures Sayings(after) && Known(after)
  {
  }

  lemma {:induction false} ResumedKeepsSound(p: string -> string, d: Daemon, stored: bool)
    requires Sound(p, d) && d.jobs != []
    ensures Sound(p, OnResumed(d, stored))
  {
    var after := OnResumed(d, stored);
    if At(d, d.jobs[0], Leased) {
      BeganKeepsPlaced(p, d, after);
      MoveKeepsSayings(d, d.jobs[0], Running);
      SameSayings(Move(d, d.jobs[0], Running), after);
    } else {
      assert IsClosing(d, d.jobs[0]);
      ClosedKeepsPlaced(p, d, after, stored);
      ClosedKeepsSayings(d, after, stored);
    }
  }

  lemma {:induction false} StepKeepsSound(p: string -> string, d: Daemon, e: Event)
    requires Sound(p, d)
    ensures Sound(p, Step(p, d, e))
  {
    hide Sound;
    match e
    case Submitted(c, id, provider) => SubmitKeepsSound(p, d, c, id, provider);
    case Probed(k, ok) =>
      if At(d, k, Probing) {
        EarlyMoveKeepsSound(p, d, k, Ended);
        EarlyMoveKeepsSound(p, d, k, Waiting);
      }
    case Acquired(k, ok) =>
      if At(d, k, Waiting) {
        EarlyMoveKeepsSound(p, d, k, Ended);
        if p(d.calls[k].c) !in d.leases { AcquiredKeepsSound(p, d, k); }
      }
    case Spoke(k) => if At(d, k, Running) { SpokeKeepsSound(p, d, k); }
    case Finalized(k, completes, released) =>
      if At(d, k, Running) || At(d, k, Failing) { FinalizedKeepsSound(p, d, k, completes, released); }
    case Resumed(stored) =>
      if d.jobs != [] { ResumedKeepsSound(p, d, stored); }
    case _ => SwitchingKeepsSound(p, d, e);
  }

  lemma {:induction false} EveryRunIsSound(p: string -> string, providers: map<string, string>, events: seq<Event>)
    ensures Sound(p, After(p, Initial(providers), events))
  {
    if events != [] {
      var front, e := events[..|events| - 1], events[|events| - 1];
      EveryRunIsSound(p, providers, front);
      StepKeepsSound(p, After(p, Initial(providers), front), e);
    }
  }

  /** In every interleaving at most one turn of a project is under way. */
  lemma {:induction false} OneTurnPerProject(
    p: string -> string, providers: map<string, string>, events: seq<Event>, j: nat, k: nat)
    requires var d := After(p, Initial(providers), events);
      && j < k < |d.calls| && Holding(d.calls[j].stage) && Holding(d.calls[k].stage)
    ensures var d := After(p, Initial(providers), events); p(d.calls[j].c) != p(d.calls[k].c)
  {
    EveryRunIsSound(p, providers, events);
  }

  /**
   * In every interleaving a conversation is marked active exactly when a turn of it began and has not closed, although
   * a closing turn takes the mark away by conversation only.
   */
  lemma {:induction false} MarkedExactly(
    p: string -> string, providers: map<string, string>, events: seq<Event>, c: string)
    ensures var d := After(p, Initial(providers), events);
      c in d.active <==> exists k | 0 <= k < |d.calls| :: d.calls[k].c == c && Begun(d.calls[k].stage)
  {
    EveryRunIsSound(p, providers, events);
  }
}
