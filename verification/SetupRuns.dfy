/** Whole runs of setup, pairing, removal and restart, with crashes. */
module SetupRuns {
  // Among them: a pairing whose host token has ended, which no run removes, and a failed pairing that leaves its phone
  // active.

  import opened Setup
  import opened Wrappers

  /** One request of a phone to be removed, and the rounds of completing it that the daemon then makes. */
  datatype Request = Request(
    deviceId: string, tombstoned: bool, withdrawn: string -> bool, rounds: seq<nat -> Attempt>)

  datatype Action =
    | Initialize(prefix: string, key: string, o: Calls)
    | Pair(prefix: string, key: string, route: Route, id: string, c: Conversation, o: Calls)
    | Remove(deviceId: Option<string>, tombstoned: bool, withdrawn: string -> bool, a: Attempt)
    | Serve(loaded: bool, opens: bool, withdrawn: string -> bool, resumed: seq<nat -> Attempt>, requests: seq<Request>)

  /** An action, and how many of its durable writes survive when a crash ends it. */
  datatype Step = Step(action: Action, crash: Option<nat>)

  /** The relay is asked at `start` or later only. */
  ghost predicate RoundsFrom(rounds: seq<nat -> Attempt>, start: int) {
    forall i, n | 0 <= i < |rounds| :: start <= rounds[i](n).now
  }

  ghost predicate From(action: Action, start: int) {
    match action
    case Remove(_, _, _, a) => start <= a.now
    case Serve(_, _, _, resumed, requests) =>
      RoundsFrom(resumed, start) && forall i | 0 <= i < |requests| :: RoundsFrom(requests[i].rounds, start)
    case _ => true
  }

  /** Everything stored since `since` keeps the pairing of `d`. */
  ghost predicate KeptSince(d: Disk, trace: seq<Disk>, since: nat) {
    forall i | since <= i < |trace| :: Kept(d, trace[i])
  }

  /** Rounds of up to three attempts, as long as the pairing is there. */
  method Finish(laptop: Laptop, config: Config, rounds: seq<nat -> Attempt>) returns (left: Config)
    requires laptop.Valid() && laptop.Current(config)
    requires config.pairing.Some? ==> config.pairing.value.revocationPending
    modifies laptop
    ensures laptop.Valid() && laptop.Current(left) && old(laptop.trace) <= laptop.trace
    ensures left.pairing.Some? ==> left.pairing.value.revocationPending
    ensures Paired(old(laptop.disk)).Some? && RoundsFrom(rounds, Expiry(old(laptop.disk))) ==>
      laptop.disk == old(laptop.disk) && laptop.trace == old(laptop.trace)
  {
    left := config;
    for i := 0 to |rounds|
      invariant laptop.Valid() && laptop.Current(left) && old(laptop.trace) <= laptop.trace
      invariant left.pairing.Some? ==> left.pairing.value.revocationPending
      invariant Paired(old(laptop.disk)).Some? && RoundsFrom(rounds, Expiry(old(laptop.disk))) ==>
        laptop.disk == old(laptop.disk) && laptop.trace == old(laptop.trace)
    {
      var done := laptop.FinishPairingRevocation(left, rounds[i]);
      if done { left := left.(pairing := None); }
    }
  }

  /** The daemon from its start on: it resumes a removal, or takes requests to be removed. */
  method ServeRequests(
    laptop: Laptop, loaded: bool, opens: bool, withdrawn: string -> bool, resumed: seq<nat -> Attempt>,
    requests: seq<Request>)
    requires laptop.Valid()
    modifies laptop
    ensures laptop.Valid() && old(laptop.trace) <= laptop.trace
    ensures
      && Paired(old(laptop.disk)).Some?
      && From(Serve(loaded, opens, withdrawn, resumed, requests), Expiry(old(laptop.disk))) ==>
        KeptSince(old(laptop.disk), laptop.trace, |old(laptop.trace)|)
  {
    ghost var d, since := laptop.disk, |laptop.trace|;
    ghost var late := Paired(d).Some? && From(Serve(loaded, opens, withdrawn, resumed, requests), Expiry(d));
    var started := laptop.StartDaemon(loaded, opens, withdrawn);
    if started.Err? { return; }
    var config := started.value;
    if config.pairing.Some? && config.pairing.value.revocationPending {
      config := Finish(laptop, config, resumed);
      return;
    }
    for i := 0 to |requests|
      invariant laptop.Valid() && laptop.Current(config) && old(laptop.trace) <= laptop.trace
      invariant late ==> Kept(d, laptop.disk) && KeptSince(d, laptop.trace, since)
    {
      var request := requests[i];
      var prepared := laptop.PreparePairingRevocation(
        config, Some(request.deviceId), request.tombstoned, request.withdrawn);
      if prepared.Ok? && config.pairing.Some? {
        config := Finish(laptop, laptop.disk.config.value, request.rounds);
      }
    }
  }

  method Perform(laptop: Laptop, action: Action)
    requires laptop.Valid()
    modifies laptop
    ensures laptop.Valid() && old(laptop.trace) <= laptop.trace
    ensures Paired(old(laptop.disk)).Some? && From(action, Expiry(old(laptop.disk))) ==>
      KeptSince(old(laptop.disk), laptop.trace, |old(laptop.trace)|)
  {
    match action
    case Initialize(prefix, key, o) =>
      var r := laptop.InitializeLocalRuntime(prefix, key, o);
    case Pair(prefix, key, route, id, c, o) =>
      var r := laptop.BootstrapPairing(prefix, key, route, id, c, o);
    case Remove(deviceId, tombstoned, withdrawn, a) =>
      var r := laptop.RevokePairing(deviceId, tombstoned, withdrawn, a);
    case Serve(loaded, opens, withdrawn, resumed, requests) =>
      ServeRequests(laptop, loaded, opens, withdrawn, resumed, requests);
  }

  /**
   * Every script of actions, crashes included, keeps the durable history sound; and a pairing stored at its start
   * stays, with its route and its secrets, when the relay is asked only after the host token ended.
   */
  method AnyRun(laptop: Laptop, script: seq<Step>)
    requires laptop.Valid()
    modifies laptop
    ensures laptop.Valid() && old(laptop.trace) <= laptop.trace
    ensures
      && Paired(old(laptop.disk)).Some?
      && (forall i | 0 <= i < |script| :: From(script[i].action, Expiry(old(laptop.disk)))) ==>
        Kept(old(laptop.disk), laptop.disk)
  {
    for i := 0 to |script|
      invariant laptop.Valid() && old(laptop.trace) <= laptop.trace
      invariant
        && Paired(old(laptop.disk)).Some?
        && (forall j | 0 <= j < |script| :: From(script[j].action, Expiry(old(laptop.disk)))) ==>
          Kept(old(laptop.disk), laptop.disk)
    {
      var survived := |laptop.trace| - 1;
      Perform(laptop, script[i].action);
      ghost var performed := laptop.trace;
      if script[i].crash.Some? && survived + script[i].crash.value < |laptop.trace| {
        laptop.Crash(survived + script[i].crash.value);
      }
      assert laptop.disk == performed[|laptop.trace| - 1];
    }
  }

  // ----- two runs -----

  const FINE := Calls(true, Done, _ => Done, true, _ => Done, Done)

  /** Nothing fails, and still the phone stays removed but paired for ever: the host token had ended. */
  method ExpiredPairingStays(prefix: string, key: string, route: Route, id: string, late: int)
    returns (laptop: Laptop, removed: Result<set<string>, SetupError>, again: Result<Config, SetupError>)
    requires route.expiresAt <= late
    ensures fresh(laptop) && laptop.Valid() && removed.Err? && again == Err(AlreadyPaired)
    ensures NoActiveMobile(laptop.disk)
    ensures Paired(laptop.disk) == Some(Pairing(route.routingId, true)) && Expiry(laptop.disk) == route.expiresAt
  {
    laptop := new Laptop();
    var paired := laptop.BootstrapPairing(prefix, key, route, id, Conversation(true, true, true), FINE);
    assert paired.Ok?;
    removed := laptop.RevokePairing(Some(id), true, _ => true, Attempt(late, true, Done, true, Done));
    again := laptop.BootstrapPairing(prefix, key, route, id, Conversation(true, true, true), FINE);
  }

  /**
   * Pairing that fails after the phone was registered leaves it active and unpaired, and the same phone cannot retry.
   */
  method FailedPairingLeavesPhoneActive(prefix: string, key: string, route: Route, id: string)
    returns (laptop: Laptop, paired: Result<Config, SetupError>, again: Result<Config, SetupError>)
    ensures fresh(laptop) && laptop.Valid() && laptop.disk.config.Some? && paired.Err? && again.Err?
    ensures Paired(laptop.disk).None? && ActiveMobile(laptop.disk, id)
  {
    laptop := new Laptop();
    var initialized := laptop.InitializeLocalRuntime(prefix, key, FINE);
    assert initialized.Ok?;
    paired := laptop.BootstrapPairing(prefix, key, route, id, Conversation(true, true, false), FINE);
    assert paired.Err? && ActiveMobile(laptop.disk, id);
    again := laptop.BootstrapPairing(prefix, key, route, id, Conversation(true, true, true), FINE);
  }

  /** A phone whose pairing was removed before the host token ended can be paired once more, over a new route. */
  method RemovedPhonePairsAgain(prefix: string, key: string, route: Route, next: Route, id: string, now: int)
    returns (laptop: Laptop, removed: Result<set<string>, SetupError>, again: Result<Config, SetupError>)
    requires now < route.expiresAt
    ensures fresh(laptop) && laptop.Valid() && removed == Ok({id})
    ensures again == Ok(Config(prefix, Some(Pairing(next.routingId, false)))) && ActiveMobile(laptop.disk, id)
    ensures laptop.disk.config == Some(again.value) && Expiry(laptop.disk) == next.expiresAt
  {
    laptop := new Laptop();
    var paired := laptop.BootstrapPairing(prefix, key, route, id, Conversation(true, true, true), FINE);
    assert paired.Ok? && ActiveMobiles(laptop.disk) == {id};
    removed := laptop.RevokePairing(Some(id), true, _ => true, Attempt(now, true, Done, true, Done));
    again := laptop.BootstrapPairing(prefix, key, next, id, Conversation(true, true, true), FINE);
  }
}
