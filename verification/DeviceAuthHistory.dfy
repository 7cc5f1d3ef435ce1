/** What happens to a challenge or a counter a second time. */
module DeviceAuthHistory {
  import opened Wrappers
  import opened Radix
  import opened Base64Url
  import opened ReplayCache
  import opened DeviceAuth

  // ----- the same text again, whatever the clock does -----

  /** The checks that do not look at the cache. */
  ghost predicate OtherwiseGood(s: State, x: Primitives, skew: nat, r: Request, c: Circumstances) {
    && ReadChallenge(x, r.deviceId, r.nonce).Some?
    && r.deviceId in s.devices && s.devices[r.deviceId].active && s.devices[r.deviceId].lastCounter < r.counter
    && c.stored && CounterInRange(r.counter)
    && Genuine(x, skew, Accepted(r, ReadChallenge(x, r.deviceId, r.nonce).value, c.second,
                                 s.devices[r.deviceId].signingKey, s.devices[r.deviceId].epoch))
  }

  /**
   * Whatever the clock does: a text accepted before is accepted again exactly when some sweep since it was last
   * accepted, that of this very call included, read at least its expiry, and everything else is good.
   */
  lemma {:induction false} TextAcceptedAgainExactly(
    s: State, x: Primitives, skew: nat, r: Request, c: Circumstances, i: nat)
    requires Sound(s, x, skew) && Latest(s.log, i, r.nonce)
    ensures Verify(s, x, skew, r, c).1.None? <==>
      (Forgotten(s.log, i) || c.first >= s.log[i].expiresAt) && OtherwiseGood(s, x, skew, r, c)
  {
    TrackedExactly(s.log, i, r.nonce);
  }

  // ----- another text of the same challenge -----

  /** Two requests answer one challenge of one device. */
  predicate SameChallenge(a: Request, b: Request) {
    a.deviceId == b.deviceId && Shaped(a.nonce) && Shaped(b.nonce) && Read32(a.nonce) == Read32(b.nonce)
  }

  /**
   * With a steady clock, a second answer to an accepted challenge passes exactly when its text was not accepted
   * before, the challenge has not expired, and window, counter and signature are good.
   */
  lemma {:induction false} SecondAnswerExactly(s: State, x: Primitives, skew: nat, r: Request, c: Circumstances, i: nat)
    requires Sound(s, x, skew) && s.steady && s.clock <= c.first <= c.second
    requires i < |s.accepted| && SameChallenge(s.accepted[i].request, r)
    ensures Verify(s, x, skew, r, c).1.None? <==>
      && (forall j | 0 <= j < |s.accepted| :: s.accepted[j].request.nonce != r.nonce)
      && c.second < s.accepted[i].expiresAt
      && r.deviceId in s.devices && s.devices[r.deviceId].active && s.devices[r.deviceId].lastCounter < r.counter
      && c.stored && CounterInRange(r.counter)
      && x.timeOf(r.timestamp).Some? && c.second - skew <= x.timeOf(r.timestamp).value <= c.second + skew
      && x.verifies(Payload(r, s.accepted[i].expiresAt), s.devices[r.deviceId].signingKey, r.signature)
  {
    AcceptanceIsExact(s, x, skew, r, c);
    SameBytesSameChallenge(x, r.deviceId, s.accepted[i].request.nonce, r.nonce);
    assert Genuine(x, skew, s.accepted[i]);
  }

  /** With a steady clock, accepted answers to one challenge differ in the two spare bits of their texts. */
  lemma {:induction false} AnswersDifferInSpareBits(s: State, x: Primitives, skew: nat, i: nat, j: nat)
    requires Sound(s, x, skew) && s.steady && i < j < |s.accepted|
    requires Read32(s.accepted[i].request.nonce) == Read32(s.accepted[j].request.nonce)
    ensures Spare(s.accepted[i].request.nonce) != Spare(s.accepted[j].request.nonce)
  {
    assert Genuine(x, skew, s.accepted[i]) && Genuine(x, skew, s.accepted[j]);
    ReadAlike(s.accepted[i].request.nonce, s.accepted[j].request.nonce);
  }

  /** If devices spell challenges as they were issued, no challenge is accepted twice. */
  lemma {:induction false} CanonicalAnswersOnce(s: State, x: Primitives, skew: nat)
    requires Sound(s, x, skew) && s.steady
    requires forall i | 0 <= i < |s.accepted| ::
      Shaped(s.accepted[i].request.nonce) && InBase(Read32(s.accepted[i].request.nonce), 256)
      && Write32(Read32(s.accepted[i].request.nonce)) == s.accepted[i].request.nonce
    ensures forall i, j | 0 <= i < j < |s.accepted| ::
      Read32(s.accepted[i].request.nonce) != Read32(s.accepted[j].request.nonce)
  {
    forall i, j | 0 <= i < j < |s.accepted|
      ensures Read32(s.accepted[i].request.nonce) != Read32(s.accepted[j].request.nonce)
    {
      RewritesExactly(s.accepted[i].request.nonce);
      RewritesExactly(s.accepted[j].request.nonce);
      if Read32(s.accepted[i].request.nonce) == Read32(s.accepted[j].request.nonce) {
        AnswersDifferInSpareBits(s, x, skew, i, j);
      }
    }
  }

  lemma {:induction false} FewValues(items: set<nat>, value: map<nat, int>, bound: nat)
    requires items <= value.Keys && forall i | i in items :: 0 <= value[i] < bound
    requires forall i, j | i in items && j in items && value[i] == value[j] :: i == j
    ensures |items| <= bound
    decreases bound
  {
    if bound > 0 {
      if i :| i in items && value[i] == bound - 1 {
        FewValues(items - {i}, value, bound - 1);
      } else {
        FewValues(items, value, bound - 1);
      }
    } else {
      assert forall i :: i !in items;
    }
  }

  /** With a steady clock, at most four answers to one challenge are accepted. */
  lemma {:induction false} AtMostFourAnswers(s: State, x: Primitives, skew: nat, answers: set<nat>, bytes: seq<int>)
    requires Sound(s, x, skew) && s.steady
    requires forall i | i in answers :: i < |s.accepted| && Read32(s.accepted[i].request.nonce) == bytes
    ensures |answers| <= 4
  {
    var spare := map i | i in answers :: Spare(s.accepted[i].request.nonce);
    forall i, j | i in answers && j in answers && spare[i] == spare[j] ensures i == j {
      if i < j { AnswersDifferInSpareBits(s, x, skew, i, j); }
      if j < i { AnswersDifferInSpareBits(s, x, skew, j, i); }
    }
    FewValues(answers, spare, 4);
  }

  // ----- counters -----

  /** An accepted counter at or below an earlier one of its device belongs to a later registration. */
  lemma {:induction false} FallMeansNewRegistration(s: State, x: Primitives, skew: nat, i: nat, j: nat)
    requires Sound(s, x, skew) && i < j < |s.accepted|
    requires s.accepted[i].request.deviceId == s.accepted[j].request.deviceId
    requires s.accepted[j].request.counter <= s.accepted[i].request.counter
    ensures s.accepted[i].epoch < s.accepted[j].epoch
  {
  }

  /**
   * After an attempt to register a device again, a counter it used before passes the counter check exactly when the
   * attempt started a new registration, which it does exactly for a revoked device.
   */
  lemma {:induction false} UsedCounterPassesExactly(
    s: State, x: Primitives, skew: nat, i: nat, key: string, counter: int)
    requires Sound(s, x, skew) && i < |s.accepted| && 1 <= counter <= s.accepted[i].request.counter
    requires s.devices[s.accepted[i].request.deviceId].epoch == s.accepted[i].epoch
    ensures var id := s.accepted[i].request.deviceId;
      var after := RegisterDevice(s.devices, id, key);
      && id in after
      && (after[id].lastCounter < counter <==> after[id].epoch != s.accepted[i].epoch)
      && (after[id].lastCounter < counter <==> !s.devices[id].active)
  {
  }

  // ----- two runs -----

  const SKEW := 30_000

  /** A request of device "d" at time 50, and the circumstances of its acceptance. */
  function RequestOf(nonce: string, counter: int): Request { Request("d", nonce, counter, "", "GET", "/", [], "") }

  const AT_FIFTY := Circumstances(50, 50, 50, true)

  function Enrolled(lastCounter: int, epoch: nat): map<string, Device> {
    map["d" := Device(true, lastCounter, "k", epoch)]
  }

  lemma {:induction false} Then(s: State, x: Primitives, events: seq<Event>, e: Event) returns (longer: seq<Event>)
    ensures Run(s, x, SKEW, longer) == After(Run(s, x, SKEW, events), x, SKEW, e)
  {
    longer := events + [e];
    assert longer[..|events|] == events;
  }

  /** Primitives that accept every signature, at time 50. */
  ghost predicate Lenient(x: Primitives) {
    Wellbehaved(x) && x.timeOf("") == Some(50) && forall p, k, g :: x.verifies(p, k, g)
  }

  /** A challenge for device "d" that lasts until 100. */
  lemma {:induction false} ChallengeFilledWith(x: Primitives, fill: int) returns (nonce: string)
    requires Wellbehaved(x) && 0 <= fill < 256
    ensures Canonical43(nonce) && ReadChallenge(x, "d", nonce) == Some(100)
    ensures |Read32(nonce)| == 32 && Read32(nonce)[8] == fill
  {
    var random: seq<int> := seq(RANDOM_BYTES, _ => fill);
    IssuedChallengeReads(x, "d", "d", 0, 100, random);
    ChallengeShape(x, "d", 0, 100, random);
    WriteReads(ChallengeBytes(x, "d", 0, 100, random));
    Big64Reads(100);
    assert (Big64(100) + random)[8] == fill;
    nonce := IssueChallenge(x, "d", 0, 100, random);
  }

  /** What a run has come to: requests of "d" accepted by time 50. */
  ghost predicate Reached(
    x: Primitives, events: seq<Event>, requests: seq<Request>, active: bool, lastCounter: int)
  {
    var s := Run(Fresh(Enrolled(0, 0), 0), x, SKEW, events);
    && Sound(s, x, SKEW) && s.steady && s.clock <= 50
    && |s.accepted| == |requests| && (forall i | 0 <= i < |requests| :: s.accepted[i].request == requests[i])
    && "d" in s.devices && s.devices["d"].active == active && s.devices["d"].lastCounter == lastCounter
  }

  lemma {:induction false} AcceptedAtFifty(s: State, x: Primitives, nonce: string, counter: int)
    requires Lenient(x) && Sound(s, x, SKEW) && s.steady && s.clock <= 50
    requires ReadChallenge(x, "d", nonce) == Some(100)
    requires forall i | 0 <= i < |s.accepted| :: s.accepted[i].request.nonce != nonce
    requires "d" in s.devices && s.devices["d"].active && s.devices["d"].lastCounter < counter
      && CounterInRange(counter)
    ensures var after := Verify(s, x, SKEW, RequestOf(nonce, counter), AT_FIFTY).0;
      && after.steady && after.clock == 50
      && after.accepted == s.accepted
           + [Accepted(RequestOf(nonce, counter), 100, 50, s.devices["d"].signingKey, s.devices["d"].epoch)]
      && after.devices == s.devices["d" := s.devices["d"].(lastCounter := counter)]
  {
    AcceptanceIsExact(s, x, SKEW, RequestOf(nonce, counter), AT_FIFTY);
  }

  /** A request with a new text, a higher counter and a good challenge is accepted. */
  lemma {:induction false} AcceptsNext(
    x: Primitives, events: seq<Event>, requests: seq<Request>, lastCounter: int, nonce: string, counter: int)
    returns (longer: seq<Event>)
    requires Lenient(x) && Reached(x, events, requests, true, lastCounter)
    requires ReadChallenge(x, "d", nonce) == Some(100)
    requires forall i | 0 <= i < |requests| :: requests[i].nonce != nonce
    requires lastCounter < counter && CounterInRange(counter)
    ensures Reached(x, longer, requests + [RequestOf(nonce, counter)], true, counter)
  {
    var r, start := RequestOf(nonce, counter), Fresh(Enrolled(0, 0), 0);
    var s := Run(start, x, SKEW, events);
    VerifyKeepsSound(s, x, SKEW, r, AT_FIFTY);
    AcceptedAtFifty(s, x, nonce, counter);
    longer := Then(start, x, events, Requested(r, AT_FIFTY));
  }

  lemma {:induction false} AcceptsFirst(x: Primitives, nonce: string, counter: int) returns (events: seq<Event>)
    requires Lenient(x) && ReadChallenge(x, "d", nonce) == Some(100) && CounterInRange(counter)
    ensures Reached(x, events, [RequestOf(nonce, counter)], true, counter)
  {
    EveryRunIsSound(Enrolled(0, 0), 0, x, SKEW, []);
    assert Reached(x, [], [], true, 0);
    events := AcceptsNext(x, [], [], 0, nonce, counter);
    assert [] + [RequestOf(nonce, counter)] == [RequestOf(nonce, counter)];
  }

  lemma {:induction false} AcceptsSecond(
    x: Primitives, events: seq<Event>, a: Request, lastCounter: int, nonce: string, counter: int)
    returns (longer: seq<Event>)
    requires Lenient(x) && Reached(x, events, [a], true, lastCounter) && ReadChallenge(x, "d", nonce) == Some(100)
    requires a.nonce != nonce && lastCounter < counter && CounterInRange(counter)
    ensures Reached(x, longer, [a, RequestOf(nonce, counter)], true, counter)
  {
    longer := AcceptsNext(x, events, [a], lastCounter, nonce, counter);
    assert [a] + [RequestOf(nonce, counter)] == [a, RequestOf(nonce, counter)];
  }

  /** A challenge and another spelling of it. */
  lemma {:induction false} TwoSpellings(x: Primitives) returns (first: string, other: string)
    requires Wellbehaved(x)
    ensures Shaped(first) && Shaped(other) && Read32(first) == Read32(other) && first != other
    ensures ReadChallenge(x, "d", first) == Some(100) && ReadChallenge(x, "d", other) == Some(100)
  {
    first := ChallengeFilledWith(x, 0);
    other := Respelled(first, 1);
    RespelledReads(first, 1);
    SameBytesSameChallenge(x, "d", first, other);
  }

  /** One challenge is accepted twice, with a steady clock, when the second answer spells it differently. */
  lemma {:induction false} OneChallengeTwoAnswers() returns (x: Primitives, events: seq<Event>, a: Request, b: Request)
    ensures Reached(x, events, [a, b], true, 2) && SameChallenge(a, b) && a.nonce != b.nonce
  {
    x := WellbehavedExist();
    var first, other := TwoSpellings(x);
    a, b := RequestOf(first, 1), RequestOf(other, 2);
    events := AcceptsFirst(x, first, 1);
    events := AcceptsSecond(x, events, a, 1, other, 2);
  }

  lemma {:induction false} Changes(
    x: Primitives, events: seq<Event>, requests: seq<Request>, active: bool, lastCounter: int,
    devices: map<string, Device>)
    returns (longer: seq<Event>)
    requires Reached(x, events, requests, active, lastCounter)
    requires OnlyAdvances(Run(Fresh(Enrolled(0, 0), 0), x, SKEW, events).devices, devices)
    requires "d" in devices
    ensures Reached(x, longer, requests, devices["d"].active, devices["d"].lastCounter)
    ensures Run(Fresh(Enrolled(0, 0), 0), x, SKEW, longer).devices == devices
  {
    longer := Then(Fresh(Enrolled(0, 0), 0), x, events, StoreChanged(devices));
    EveryRunIsSound(Enrolled(0, 0), 0, x, SKEW, longer);
  }

  /** Revoking and registering anew keeps what was accepted and restarts the counter. */
  lemma {:induction false} Renews(x: Primitives, events: seq<Event>, a: Request, lastCounter: int)
    returns (longer: seq<Event>)
    requires Reached(x, events, [a], true, lastCounter)
    ensures Reached(x, longer, [a], true, 0)
  {
    var used := Run(Fresh(Enrolled(0, 0), 0), x, SKEW, events).devices;
    StoreOperationsOnlyAdvance(used, "d", "k", 0);
    longer := Changes(x, events, [a], true, lastCounter, RevokeDevice(used, "d"));
    StoreOperationsOnlyAdvance(RevokeDevice(used, "d"), "d", "k", 0);
    longer := Changes(x, longer, [a], false, lastCounter, RegisterDevice(RevokeDevice(used, "d"), "d", "k"));
  }

  /** Accepted counters of a device fall when it is revoked and registered anew in between. */
  lemma {:induction false} CountersFall() returns (x: Primitives, events: seq<Event>, a: Request, b: Request)
    ensures Reached(x, events, [a, b], true, 1) && a.deviceId == b.deviceId && a.counter == 5 && b.counter == 1
  {
    x := WellbehavedExist();
    var first, other := TwoSpellings(x);
    a, b := RequestOf(first, 5), RequestOf(other, 1);
    events := AcceptsFirst(x, first, 5);
    events := Renews(x, events, a, 5);
    events := AcceptsSecond(x, events, a, 0, other, 1);
  }
}
