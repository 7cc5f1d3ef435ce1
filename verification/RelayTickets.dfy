/** The relay's one-use tickets: a replay cache that forgets a ticket once its age alone rejects it. */
module RelayTickets {
  import opened Wrappers
  import opened ReplayCache
  import Alphabets
  import Base64Url

  datatype Role = Host | Device

  datatype Payload = Payload(routingId: string, role: Role, expiresAt: int, nonce: string)

  datatype TicketError =
    | InvalidRoutingId | LifetimeOutOfRange | Malformed | InvalidSignature | InvalidPayload | WrongScope
    | Expired | AlreadyUsed | CapacityExhausted

  predicate ValidRoutingId(id: string) { Base64Url.Shaped(id) }

  lemma {:induction false} RoutingIdSpells(id: string)
    ensures ValidRoutingId(id) <==> |id| == 43 && forall i | 0 <= i < 43 :: id[i] in Alphabets.BASE64URL
  {
    forall i | 0 <= i < |id| ensures Base64Url.InAlphabet(id[i]) <==> id[i] in Alphabets.BASE64URL {
      Alphabets.Base64UrlExactly(id[i]);
    }
  }

  /** The text cut at every full stop. */
  function Parts(text: string): (parts: seq<string>)
    ensures |parts| >= 1
  {
    if text == "" then [""]
    else
      var rest := Parts(text[1..]);
      if text[0] == '.' then [""] + rest else [[text[0]] + rest[0]] + rest[1..]
  }

  function Joined(parts: seq<string>): string
    requires |parts| >= 1
  {
    if |parts| == 1 then parts[0] else parts[0] + "." + Joined(parts[1..])
  }

  /** Cutting loses nothing and leaves no full stop, so the parts of a ticket are unique. */
  lemma {:induction false} PartsRejoin(text: string)
    ensures Joined(Parts(text)) == text
    ensures forall i | 0 <= i < |Parts(text)| :: '.' !in Parts(text)[i]
  {
    if text != "" {
      PartsRejoin(text[1..]);
      var rest := Parts(text[1..]);
      var parts := Parts(text);
      if text[0] == '.' {
        assert parts[1..] == rest;
      } else {
        assert parts[1..] == rest[1..];
        assert forall i | 1 <= i < |parts| :: parts[i] == rest[i];
      }
      assert text == [text[0]] + text[1..];
    }
  }

  /** One text with a good signature after a full stop, that reads as the payload. */
  ghost predicate Authentic<P(!new)>(
    verifies: (string, string) -> bool, read: string -> Option<P>, ticket: string, p: P)
  {
    exists encoded, signature ::
      '.' !in encoded && '.' !in signature && ticket == encoded + "." + signature
      && verifies(encoded, signature) && read(encoded) == Some(p)
  }

  /** The replay cache, with its log and the history of the clock. */
  datatype Cache = Cache(consumed: map<string, int>, nextPruneAt: int, log: seq<Happening>, clock: int, steady: bool)

  /** Pruning read no time past the clock's. */
  ghost predicate Behind(log: seq<Happening>, clock: int) {
    forall k | 0 <= k < |log| && log[k].Pruned? :: log[k].reading <= clock
  }

  ghost predicate Sound(c: Cache) {
    && c.consumed == Tracked(c.log) && Lawful(c.log)
    && (c.steady ==> Steady(c.log) && Behind(c.log, c.clock))
  }

  function ReadClock(c: Cache, now: int): Cache {
    c.(clock := now, steady := c.steady && c.clock <= now)
  }

  function Prune(c: Cache, now: int, interval: nat): Cache {
    if now < c.nextPruneAt then ReadClock(c, now)
    else
      ReadClock(c, now).(consumed := Live(c.consumed, now), nextPruneAt := now + interval, log := c.log + [Pruned(now)])
  }

  /** Stores the nonce of a payload whose age was read at `now` and that was looked up at `checked`. */
  function Store(c: Cache, p: Payload, now: int, checked: nat): Cache {
    c.(consumed := c.consumed[p.nonce := p.expiresAt], log := c.log + [Remembered(p.nonce, p.expiresAt, now, checked)])
  }

  /** What taking a ticket with this payload does; the clock is read at `now`, and again at `later` to prune. */
  function Admit(c: Cache, p: Payload, now: int, later: int, limit: nat, interval: nat): (Cache, Option<TicketError>) {
    if p.expiresAt <= now then (ReadClock(c, now), Some(Expired))
    else if p.nonce in c.consumed then (ReadClock(c, now), Some(AlreadyUsed))
    else
      var kept := Prune(ReadClock(c, now), later, interval);
      if |kept.consumed| >= limit then (kept, Some(CapacityExhausted))
      else (Store(kept, p, now, |c.log|), None)
  }

  /** Between two logs exactly this payload was stored. */
  ghost predicate Took(before: seq<Happening>, after: seq<Happening>, p: Payload) {
    && |before| < |after| && before == after[..|before|]
    && Remembers(after, |after| - 1, p.nonce) && after[|after| - 1].expiresAt == p.expiresAt
    && forall k | |before| <= k < |after| - 1 :: after[k].Pruned?
  }

  /** Between two logs nothing was stored. */
  ghost predicate TookNothing(before: seq<Happening>, after: seq<Happening>) {
    before <= after && forall k | |before| <= k < |after| :: after[k].Pruned?
  }

  lemma {:induction false} PruneFewer(c: Cache, now: int, interval: nat)
    ensures |Prune(c, now, interval).consumed| <= |c.consumed|
  {
    var kept := Live(c.consumed, now);
    assert c.consumed.Keys == kept.Keys + (c.consumed.Keys - kept.Keys);
    assert |kept.Keys| <= |c.consumed.Keys|;
  }

  lemma {:induction false} PruneKeepsSound(c: Cache, now: int, interval: nat)
    requires Sound(c)
    ensures Sound(Prune(c, now, interval))
  {
    if now >= c.nextPruneAt {
      OneMore(c.log, Pruned(now));
      PruneKeepsLawful(c.log, now);
    }
  }

  lemma {:induction false} RememberKeepsSteady(log: seq<Happening>, h: Happening, clock: int)
    requires Steady(log) && Behind(log, clock) && h.Remembered?
    requires forall k | 0 <= k < |log| && k < h.checked && log[k].Pruned? :: log[k].reading <= h.at
    ensures Steady(log + [h]) && Behind(log + [h], clock)
  {
  }

  /** Storing what was looked up before the last prune, if any. */
  lemma {:induction false} StoreKeepsSound(c: Cache, kept: Cache, p: Payload, now: int)
    requires Sound(c) && Sound(kept) && now < p.expiresAt && p.nonce !in c.consumed
    requires kept.log == c.log || (|kept.log| == |c.log| + 1 && c.log <= kept.log && kept.log[|c.log|].Pruned?)
    requires kept.steady ==> c.steady && c.clock <= now
    ensures Sound(Store(kept, p, now, |c.log|))
  {
    var h := Remembered(p.nonce, p.expiresAt, now, |c.log|);
    assert kept.log[..|c.log|] == c.log;
    OneMore(kept.log, h);
    RememberKeepsLawful(kept.log, h);
    if kept.steady {
      assert forall k | 0 <= k < |c.log| :: kept.log[k] == c.log[k];
      RememberKeepsSteady(kept.log, h, kept.clock);
    }
  }

  /** Every attempt keeps the cache exact and within its cap. */
  lemma {:induction false} AdmitKeepsSound(c: Cache, p: Payload, now: int, later: int, limit: nat, interval: nat)
    requires Sound(c) && |c.consumed| <= limit
    ensures Sound(Admit(c, p, now, later, limit, interval).0)
    ensures |Admit(c, p, now, later, limit, interval).0.consumed| <= limit
  {
    var read := ReadClock(c, now);
    if now < p.expiresAt && p.nonce !in c.consumed {
      PruneFewer(read, later, interval);
      PruneKeepsSound(read, later, interval);
      StoreKeepsSound(c, Prune(read, later, interval), p, now);
    }
  }

  /** What the cache holds once the second reading has dropped the expired entries, if a prune was due. */
  function Kept(c: Cache, later: int): map<string, int> {
    if later < c.nextPruneAt then c.consumed else map n | n in c.consumed && later < c.consumed[n] :: c.consumed[n]
  }

  predicate HasRoom(c: Cache, later: int, limit: nat) { |Kept(c, later)| < limit }

  /** What one attempt answers and logs: an expired or used ticket nothing, any other a prune if one is due. */
  lemma {:induction false} AttemptOutcome(c: Cache, p: Payload, now: int, later: int, limit: nat, interval: nat)
    ensures var (after, error) := Admit(c, p, now, later, limit, interval);
      && error == (if p.expiresAt <= now then Some(Expired) else if p.nonce in c.consumed then Some(AlreadyUsed)
                   else if HasRoom(c, later, limit) then None else Some(CapacityExhausted))
      && (error == Some(Expired) || error == Some(AlreadyUsed) ==> after == ReadClock(c, now))
      && (error == None || error == Some(CapacityExhausted) ==>
            && after.log == c.log + (if later < c.nextPruneAt then [] else [Pruned(later)])
                 + (if error == None then [Remembered(p.nonce, p.expiresAt, now, |c.log|)] else [])
            && after.consumed == (if error == None then Kept(c, later)[p.nonce := p.expiresAt] else Kept(c, later))
            && after.nextPruneAt == (if later < c.nextPruneAt then c.nextPruneAt else later + interval))
  {
    assert Live(c.consumed, later) == map n | n in c.consumed && later < c.consumed[n] :: c.consumed[n];
  }

  /** When the next prune is due: an interval after the last one, if any. */
  function DueAt(log: seq<Happening>, first: int, interval: nat): int {
    if log == [] then first
    else if log[|log| - 1].Pruned? then log[|log| - 1].reading + interval
    else DueAt(log[..|log| - 1], first, interval)
  }

  /** No prune came before it was due, and the cache knows when the next one is. */
  ghost predicate OnTime(c: Cache, first: int, interval: nat) {
    && c.nextPruneAt == DueAt(c.log, first, interval)
    && forall k | 0 <= k < |c.log| && c.log[k].Pruned? :: DueAt(c.log[..k], first, interval) <= c.log[k].reading
  }

  lemma {:induction false} LoggedOnTime(c: Cache, h: Happening, first: int, interval: nat)
    requires OnTime(c, first, interval) && (h.Pruned? ==> c.nextPruneAt <= h.reading)
    ensures OnTime(c.(log := c.log + [h], nextPruneAt := if h.Pruned? then h.reading + interval else c.nextPruneAt),
              first, interval)
  {
    var longer := c.log + [h];
    assert longer[..|c.log|] == c.log;
    assert forall k | 0 <= k < |c.log| :: longer[k] == c.log[k] && longer[..k] == c.log[..k];
  }

  lemma {:induction false} PruneIsOnTime(c: Cache, later: int, first: int, interval: nat)
    requires OnTime(c, first, interval)
    ensures OnTime(Prune(c, later, interval), first, interval)
  {
    if c.nextPruneAt <= later { LoggedOnTime(c, Pruned(later), first, interval); }
  }

  lemma {:induction false} AdmitIsOnTime(
    c: Cache, p: Payload, now: int, later: int, limit: nat, interval: nat, first: int)
    requires OnTime(c, first, interval)
    ensures OnTime(Admit(c, p, now, later, limit, interval).0, first, interval)
  {
    PruneIsOnTime(ReadClock(c, now), later, first, interval);
    LoggedOnTime(Prune(ReadClock(c, now), later, interval), Remembered(p.nonce, p.expiresAt, now, |c.log|), first,
      interval);
  }

  /** In every run, whatever the clock does, prunes are at least an interval apart. */
  lemma {:induction false} EveryRunIsOnTime(
    start: int, nextPruneAt: int, attempts: seq<Attempt>, limit: nat, interval: nat)
    ensures OnTime(Run(Cache(map[], nextPruneAt, [], start, true), attempts, limit, interval), nextPruneAt, interval)
  {
    if attempts != [] {
      var front, a := attempts[..|attempts| - 1], attempts[|attempts| - 1];
      EveryRunIsOnTime(start, nextPruneAt, front, limit, interval);
      var before := Run(Cache(map[], nextPruneAt, [], start, true), front, limit, interval);
      AdmitIsOnTime(before, a.payload, a.now, a.later, limit, interval, nextPruneAt);
    }
  }

  /**
   * Whatever the clock does: a nonce taken before is taken again exactly when its ticket is unexpired, some prune
   * since it was last taken read at least its expiry then, and the cache has room.
   */
  lemma {:induction false} TakenAgainExactly(
    c: Cache, p: Payload, now: int, later: int, limit: nat, interval: nat, i: nat)
    requires Sound(c) && Latest(c.log, i, p.nonce)
    ensures Admit(c, p, now, later, limit, interval).1 == None <==>
      now < p.expiresAt && Forgotten(c.log, i) && HasRoom(c, later, limit)
  {
    TrackedExactly(c.log, i, p.nonce);
    AttemptOutcome(c, p, now, later, limit, interval);
  }

  /** A nonce never taken is taken exactly when its ticket is unexpired and the cache has room. */
  lemma {:induction false} FirstTakenExactly(c: Cache, p: Payload, now: int, later: int, limit: nat, interval: nat)
    requires Sound(c) && forall i | 0 <= i < |c.log| :: !Remembers(c.log, i, p.nonce)
    ensures Admit(c, p, now, later, limit, interval).1 == None <==>
      now < p.expiresAt && HasRoom(c, later, limit)
  {
    NeverRemembered(c.log, p.nonce);
    AttemptOutcome(c, p, now, later, limit, interval);
  }

  /** With a steady clock the replay check refuses exactly the nonces taken before. */
  lemma {:induction false} ReplayCheckIsExact(c: Cache, p: Payload, now: int, later: int, limit: nat, interval: nat)
    requires Sound(c) && c.steady && c.clock <= now < p.expiresAt
    requires forall i | 0 <= i < |c.log| && Remembers(c.log, i, p.nonce) :: c.log[i].expiresAt == p.expiresAt
    ensures Admit(c, p, now, later, limit, interval).1 == Some(AlreadyUsed) <==>
      exists i | 0 <= i < |c.log| :: Remembers(c.log, i, p.nonce)
  {
    if i: nat :| i < |c.log| && Remembers(c.log, i, p.nonce) {
      var j := LatestOf(c.log, i, p.nonce);
      TrackedExactly(c.log, j, p.nonce);
    } else {
      NeverRemembered(c.log, p.nonce);
    }
  }

  datatype Attempt = Attempt(payload: Payload, now: int, later: int)

  function Run(c: Cache, attempts: seq<Attempt>, limit: nat, interval: nat): Cache {
    if attempts == [] then c
    else
      var a := attempts[|attempts| - 1];
      Admit(Run(c, attempts[..|attempts| - 1], limit, interval), a.payload, a.now, a.later, limit, interval).0
  }

  lemma {:induction false} EveryRunIsSound(
    start: int, nextPruneAt: int, attempts: seq<Attempt>, limit: nat, interval: nat)
    ensures var end := Run(Cache(map[], nextPruneAt, [], start, true), attempts, limit, interval);
      Sound(end) && |end.consumed| <= limit
  {
    if attempts != [] {
      var front, a := attempts[..|attempts| - 1], attempts[|attempts| - 1];
      EveryRunIsSound(start, nextPruneAt, front, limit, interval);
      var before := Run(Cache(map[], nextPruneAt, [], start, true), front, limit, interval);
      AdmitKeepsSound(before, a.payload, a.now, a.later, limit, interval);
    }
  }

  /** In every run with a clock that never steps back, no nonce is taken twice, and the cache stays within its cap. */
  lemma {:induction false} NoNonceTwice(
    start: int, nextPruneAt: int, attempts: seq<Attempt>, limit: nat, interval: nat)
    ensures var end := Run(Cache(map[], nextPruneAt, [], start, true), attempts, limit, interval);
      && |end.consumed| <= limit
      && (end.steady && OneExpiryPerNonce(end.log) ==>
            forall i, j | 0 <= i < j < |end.log| && end.log[i].Remembered? && end.log[j].Remembered? ::
              end.log[i].nonce != end.log[j].nonce)
  {
    var end := Run(Cache(map[], nextPruneAt, [], start, true), attempts, limit, interval);
    EveryRunIsSound(start, nextPruneAt, attempts, limit, interval);
    if end.steady && OneExpiryPerNonce(end.log) {
      forall i, j | 0 <= i < j < |end.log| && end.log[i].Remembered? && end.log[j].Remembered?
        ensures end.log[i].nonce != end.log[j].nonce
      {
        NoReuse(end.log, i, j);
      }
    }
  }

  /** After pruning, a clock that steps back lets the same ticket in again. */
  lemma {:induction false} StepBackReplays(id: string)
    ensures exists attempts ::
      Run(Cache(map[], 0, [], 0, true), attempts, 10, 1).log
      == [Pruned(5), Remembered("p", 10, 5, 0), Pruned(20), Remembered("q", 90, 20, 2),
          Remembered("p", 10, 5, 4)]
  {
    var p, q := Payload(id, Host, 10, "p"), Payload(id, Host, 90, "q");
    var a1, a2, a3 := Attempt(p, 5, 5), Attempt(q, 20, 20), Attempt(p, 5, 5);
    var c0 := Cache(map[], 0, [], 0, true);
    var c1 := Admit(c0, p, 5, 5, 10, 1).0;
    assert Live(map[], 5) == map[];
    assert c1 == Cache(map["p" := 10], 6, [Pruned(5), Remembered("p", 10, 5, 0)], 5, true);
    var c2 := Admit(c1, q, 20, 20, 10, 1).0;
    assert Live(map["p" := 10], 20) == map[];
    assert c2.consumed == map["q" := 90] && c2.nextPruneAt == 21;
    var c3 := Admit(c2, p, 5, 5, 10, 1).0;
    assert [a1][..0] == [] && [a1, a2][..1] == [a1] && [a1, a2, a3][..2] == [a1, a2];
    assert Run(c0, [a1], 10, 1) == c1;
    assert Run(c0, [a1, a2], 10, 1) == c2;
    assert Run(c0, [a1, a2, a3], 10, 1) == c3;
  }

  /** Everything checked before the clock is read. */
  function Inspect(
    verifies: (string, string) -> bool, read: string -> Option<Payload>, ticket: string, routingId: string, role: Role)
    : Result<Payload, TicketError>
  {
    var parts := Parts(ticket);
    if !ValidRoutingId(routingId) then Err(InvalidRoutingId)
    else if |parts| != 2 then Err(Malformed)
    else if !verifies(parts[0], parts[1]) then Err(InvalidSignature)
    else
      match read(parts[0])
      case None => Err(InvalidPayload)
      case Some(p) => if p.routingId != routingId || p.role != role then Err(WrongScope) else Ok(p)
  }

  /** Inspection passes exactly the authentic tickets of this very connection. */
  lemma {:induction false} InspectionPasses(
    verifies: (string, string) -> bool, read: string -> Option<Payload>, ticket: string, routingId: string, role: Role,
    p: Payload)
    ensures Inspect(verifies, read, ticket, routingId, role) == Ok(p) <==>
      ValidRoutingId(routingId) && Authentic(verifies, read, ticket, p) && p.routingId == routingId && p.role == role
  {
    PartsRejoin(ticket);
    var parts := Parts(ticket);
    if |parts| == 2 {
      assert ticket == parts[0] + "." + parts[1];
    }
    forall encoded, signature | '.' !in encoded && '.' !in signature && ticket == encoded + "." + signature
      ensures parts == [encoded, signature]
    {
      OneStop(encoded, signature);
    }
  }

  /** The error of any other ticket, checked in this order: form, signature, payload, scope. */
  lemma {:induction false} InspectionRefuses(
    verifies: (string, string) -> bool, read: string -> Option<Payload>, encoded: string, signature: string,
    routingId: string, role: Role)
    requires ValidRoutingId(routingId) && '.' !in encoded && '.' !in signature
    ensures var e := Inspect(verifies, read, encoded + "." + signature, routingId, role);
      && (e == Err(InvalidSignature) <==> !verifies(encoded, signature))
      && (e == Err(InvalidPayload) <==> verifies(encoded, signature) && read(encoded).None?)
      && (e == Err(WrongScope) <==>
            && verifies(encoded, signature) && read(encoded).Some?
            && (read(encoded).value.routingId != routingId || read(encoded).value.role != role))
  {
    OneStop(encoded, signature);
  }

  /** Routing ids are 43 letters of the alphabet; a ticket is two texts without a full stop, with one between them. */
  lemma {:induction false} InspectionRefusesForm(
    verifies: (string, string) -> bool, read: string -> Option<Payload>, ticket: string, routingId: string, role: Role)
    ensures var e := Inspect(verifies, read, ticket, routingId, role);
      var named := |routingId| == 43 && forall i | 0 <= i < 43 :: routingId[i] in Alphabets.BASE64URL;
      && (e == Err(InvalidRoutingId) <==> !named)
      && (e == Err(Malformed) <==> named && !exists encoded, signature ::
            '.' !in encoded && '.' !in signature && ticket == encoded + "." + signature)
  {
    RoutingIdSpells(routingId);
    PartsRejoin(ticket);
    forall encoded, signature | '.' !in encoded && '.' !in signature && ticket == encoded + "." + signature
      ensures |Parts(ticket)| == 2
    {
      OneStop(encoded, signature);
    }
    if |Parts(ticket)| == 2 { assert ticket == Parts(ticket)[0] + "." + Parts(ticket)[1]; }
  }

  /** The ticket is authentic and of this very connection, has not expired, was not used, and there is room for it. */
  ghost predicate Redeemable(
    verifies: (string, string) -> bool, read: string -> Option<Payload>, ticket: string, routingId: string, role: Role,
    c: Cache, now: int, later: int, limit: nat, p: Payload)
  {
    && ValidRoutingId(routingId) && Authentic(verifies, read, ticket, p) && p.routingId == routingId && p.role == role
    && now < p.expiresAt && p.nonce !in c.consumed && HasRoom(c, later, limit)
  }

  /** A fresh ticket; `nonce` is the random value drawn for it. */
  function Issue(
    sign: string -> string, encode: Payload -> string, routingId: string, role: Role, now: int, lifetimeMs: int,
    nonce: string)
    : Result<string, TicketError>
  {
    if !ValidRoutingId(routingId) then Err(InvalidRoutingId)
    else if !(1_000 <= lifetimeMs <= 5 * 60_000) then Err(LifetimeOutOfRange)
    else
      var encoded := encode(Payload(routingId, role, now + lifetimeMs, nonce));
      Ok(encoded + "." + sign(encoded))
  }

  /** The payload reads back from its encoding, neither text holds a full stop, and the own signature verifies. */
  ghost predicate Faithful(
    sign: string -> string, encode: Payload -> string, verifies: (string, string) -> bool,
    read: string -> Option<Payload>,
    p: Payload)
  {
    && '.' !in encode(p) && read(encode(p)) == Some(p)
    && '.' !in sign(encode(p)) && verifies(encode(p), sign(encode(p)))
  }

  /** A ticket is issued exactly for a routing id of the right form and a lifetime of one second to five minutes. */
  lemma {:induction false} IssuedExactly(
    sign: string -> string, encode: Payload -> string, routingId: string, role: Role, now: int, lifetimeMs: int,
    nonce: string)
    ensures var r, encoded := Issue(sign, encode, routingId, role, now, lifetimeMs, nonce),
              encode(Payload(routingId, role, now + lifetimeMs, nonce));
      if |routingId| != 43 || exists i | 0 <= i < 43 :: routingId[i] !in Alphabets.BASE64URL then
        r == Err(InvalidRoutingId)
      else if lifetimeMs < 1_000 || 300_000 < lifetimeMs then r == Err(LifetimeOutOfRange)
      else r == Ok(encoded + "." + sign(encoded))
  {
    RoutingIdSpells(routingId);
  }

  /** An issued ticket is taken once by its own connection, and a second time not at all while it lasts. */
  lemma {:induction false} IssuedTicketIsTaken(
    sign: string -> string, encode: Payload -> string, verifies: (string, string) -> bool,
    read: string -> Option<Payload>,
    routingId: string, role: Role, issuedAt: int, lifetimeMs: int, nonce: string,
    c: Cache, now: int, later: int, again: int, limit: nat, interval: nat)
    requires Faithful(sign, encode, verifies, read, Payload(routingId, role, issuedAt + lifetimeMs, nonce))
    requires Issue(sign, encode, routingId, role, issuedAt, lifetimeMs, nonce).Ok?
    requires now <= later <= again < issuedAt + lifetimeMs && nonce !in c.consumed && |c.consumed| < limit
    ensures var ticket := Issue(sign, encode, routingId, role, issuedAt, lifetimeMs, nonce).value;
      var p := Payload(routingId, role, issuedAt + lifetimeMs, nonce);
      && Inspect(verifies, read, ticket, routingId, role) == Ok(p)
      && Admit(c, p, now, later, limit, interval).1 == None
      && Admit(Admit(c, p, now, later, limit, interval).0, p, again, again, limit, interval).1 == Some(AlreadyUsed)
  {
    var p := Payload(routingId, role, issuedAt + lifetimeMs, nonce);
    OneStop(encode(p), sign(encode(p)));
    PruneFewer(ReadClock(c, now), later, interval);
  }

  class RelayTicketAuthority {
    const verifies: (string, string) -> bool        // the keyed signature check
    const read: string -> Option<Payload>           // base64url, JSON and shape of the payload
    const maxTrackedTickets: nat
    const pruneIntervalMs: nat
    var consumed: map<string, int>
    var nextPruneAt: int
    ghost var log: seq<Happening>
    ghost var clock: int
    ghost var steady: bool

    ghost function State(): Cache
      reads this
    {
      Cache(consumed, nextPruneAt, log, clock, steady)
    }

    ghost predicate Valid()
      reads this
    {
      1 <= maxTrackedTickets && 1 <= pruneIntervalMs && |consumed| <= maxTrackedTickets && Sound(State())
    }

    constructor (
      verifies: (string, string) -> bool, read: string -> Option<Payload>, now: int, maxTrackedTickets: nat,
      pruneIntervalMs: nat)
      requires 1 <= maxTrackedTickets && 1 <= pruneIntervalMs
      ensures Valid() && State() == Cache(map[], 0, [], now, true)
      ensures this.verifies == verifies && this.read == read
      ensures this.maxTrackedTickets == maxTrackedTickets && this.pruneIntervalMs == pruneIntervalMs
    {
      this.verifies, this.read := verifies, read;
      this.maxTrackedTickets, this.pruneIntervalMs := maxTrackedTickets, pruneIntervalMs;
      consumed, nextPruneAt := map[], 0;
      log, clock, steady := [], now, true;
    }

    /** Forgets expired tickets, at most once per interval. */
    method PruneConsumed(now: int)
      modifies this`consumed, this`nextPruneAt, this`log, this`clock, this`steady
      ensures State() == Prune(old(State()), now, pruneIntervalMs)
    {
      steady, clock := steady && clock <= now, now;
      if now < nextPruneAt {
        return;
      }
      consumed := Live(consumed, now);
      log := log + [Pruned(now)];
      nextPruneAt := now + pruneIntervalMs;
    }

    /** The part of consume that reads the clock. */
    method Take(p: Payload, now: int, later: int) returns (error: Option<TicketError>)
      modifies this
      ensures (State(), error) == Admit(old(State()), p, now, later, maxTrackedTickets, pruneIntervalMs)
    {
      steady, clock := steady && clock <= now, now;
      if p.expiresAt <= now { return Some(Expired); }
      if p.nonce in consumed { return Some(AlreadyUsed); }
      ghost var checked := |log|;
      PruneConsumed(later);
      if |consumed| >= maxTrackedTickets { return Some(CapacityExhausted); }
      log := log + [Remembered(p.nonce, p.expiresAt, now, checked)];
      consumed := consumed[p.nonce := p.expiresAt];
      return None;
    }

    method Consume(ticket: string, routingId: string, role: Role, now: int, later: int)
      returns (error: Option<TicketError>)
      requires Valid()
      modifies this
      ensures Valid()
      ensures
        match Inspect(verifies, read, ticket, routingId, role)
        case Err(e) => error == Some(e) && State() == old(State())
        case Ok(p) => (State(), error) == Admit(old(State()), p, now, later, maxTrackedTickets, pruneIntervalMs)
      ensures error.None? <==>
        exists p :: Redeemable(verifies, read, ticket, routingId, role, old(State()), now, later, maxTrackedTickets, p)
    {
      ghost var before := State();
      forall p
        ensures Inspect(verifies, read, ticket, routingId, role) == Ok(p) <==>
          ValidRoutingId(routingId) && Authentic(verifies, read, ticket, p) && p.routingId == routingId
          && p.role == role
      {
        InspectionPasses(verifies, read, ticket, routingId, role, p);
      }
      if !ValidRoutingId(routingId) { return Some(InvalidRoutingId); }
      var parts := Parts(ticket);
      if |parts| != 2 { return Some(Malformed); }
      var encoded, signature := parts[0], parts[1];
      if !verifies(encoded, signature) { return Some(InvalidSignature); }
      var payload := read(encoded);
      if payload.None? { return Some(InvalidPayload); }
      var p := payload.value;
      if p.routingId != routingId || p.role != role { return Some(WrongScope); }
      AdmitKeepsSound(State(), p, now, later, maxTrackedTickets, pruneIntervalMs);
      AttemptOutcome(State(), p, now, later, maxTrackedTickets, pruneIntervalMs);
      error := Take(p, now, later);
      if error.None? {
        assert Redeemable(verifies, read, ticket, routingId, role, before, now, later, maxTrackedTickets, p);
      }
    }
  }

  lemma {:induction false} OneStop(encoded: string, signature: string)
    requires '.' !in encoded && '.' !in signature
    ensures Parts(encoded + "." + signature) == [encoded, signature]
  {
    var text := encoded + "." + signature;
    if encoded == "" {
      NoStop(signature);
      assert text[1..] == signature;
    } else {
      OneStop(encoded[1..], signature);
      assert text[1..] == encoded[1..] + "." + signature;
      assert [encoded[0]] + encoded[1..] == encoded;
    }
  }

  lemma {:induction false} NoStop(text: string)
    requires '.' !in text
    ensures Parts(text) == [text]
  {
    if text != "" {
      NoStop(text[1..]);
      assert [text[0]] + text[1..] == text;
    }
  }
}
