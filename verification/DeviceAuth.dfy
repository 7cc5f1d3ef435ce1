/** Signed requests of paired devices, challenges and counters. */
module DeviceAuth {
  // A challenge carries its own authenticated expiry, and each text of it is accepted once; four texts spell one
  // challenge. Counters go up within one registration of a device.

  import opened Wrappers
  import opened Radix
  import opened Base64Url
  import opened ReplayCache

  const MAX_SAFE_INTEGER := 0x1F_FFFF_FFFF_FFFF
  const RANDOM_BYTES := 12
  const TAG_BYTES := 12

  type Bytes = seq<int>

  datatype Reason =
    ChallengeMissing | ChallengeReplayed | ChallengeExpired | TimestampOutsideWindow | DeviceMissing
    | RevokedOrCounterReplayed | SignatureInvalid | CounterRace

  /** `epoch` counts the registrations under this id; registering a revoked device again restarts its counter. */
  datatype Device = Device(active: bool, lastCounter: int, signingKey: string, epoch: nat)

  datatype Request = Request(
    deviceId: string, nonce: string, counter: int, timestamp: string, verb: string, path: string, body: Bytes,
    signature: string)

  /** What a device signs. */
  datatype Signed = Signed(
    verb: string, path: string, body: Bytes, nonce: string, counter: int, timestamp: string, challengeExpiresAt: int)

  /** The foreign calls: the truncated keyed hash, date parsing and signature checking. */
  datatype Primitives = Primitives(
    tag: (string, Bytes) -> Bytes, timeOf: string -> Option<int>, verifies: (Signed, string, string) -> bool)

  /** One authenticated request; `key` and `epoch` are the store's at that time. */
  datatype Accepted = Accepted(request: Request, expiresAt: int, at: int, key: string, epoch: nat)

  // ----- challenges -----

  /** An unsigned 64-bit big-endian integer. */
  function Big64(n: nat): Bytes {
    var digits := DigitsOf(n, 256);
    seq(if |digits| <= 8 then 8 - |digits| else 0, _ => 0) + digits
  }

  lemma {:induction false} Big64Reads(n: nat)
    requires n <= MAX_SAFE_INTEGER
    ensures |Big64(n)| == 8 && Value(Big64(n), 256) == n
  {
    PowAdd(256, 4, 4);
    assert Pow(256, 4) == 0x1_0000_0000;
    FitsIn(n, 256, 8);
    var digits := DigitsOf(n, 256);
    DigitsOfCanonical(n, 256);
    ValueDropsZeros(8 - |digits|, digits, 256);
  }

  /** The expiry a nonce carries, whoever it was issued to. */
  function ExpiryOf(nonce: string): Option<int> {
    var bytes := Read32(nonce);
    if !Shaped(nonce) || |bytes| != 32 then None
    else
      var n := Value(bytes[..8], 256);
      if n > MAX_SAFE_INTEGER then None else Some(n)
  }

  /** The tag covers the device as well as the expiry. */
  function ReadChallenge(x: Primitives, deviceId: string, nonce: string): Option<int> {
    var bytes := Read32(nonce);
    if !Shaped(nonce) || |bytes| != 32 then None
    else if bytes[8 + RANDOM_BYTES..] != x.tag(deviceId, bytes[..8 + RANDOM_BYTES]) then None
    else ExpiryOf(nonce)
  }

  /** The 32 bytes of a challenge. */
  function ChallengeBytes(x: Primitives, deviceId: string, now: nat, lifetime: nat, random: Bytes): Bytes {
    var unsigned := Big64(now + lifetime) + random;
    unsigned + x.tag(deviceId, unsigned)
  }

  /** Tags are twelve bytes long. */
  ghost predicate Wellbehaved(x: Primitives) {
    forall d, b :: |x.tag(d, b)| == TAG_BYTES && InBase(x.tag(d, b), 256)
  }

  lemma {:induction false} WellbehavedExist() returns (x: Primitives)
    ensures Wellbehaved(x) && x.timeOf("") == Some(50) && forall p, k, g :: x.verifies(p, k, g)
  {
    x := Primitives((_, _) => seq(TAG_BYTES, _ => 0), _ => Some(50), (_, _, _) => true);
  }

  lemma {:induction false} ChallengeShape(x: Primitives, deviceId: string, now: nat, lifetime: nat, random: Bytes)
    requires Wellbehaved(x) && |random| == RANDOM_BYTES && InBase(random, 256) && now + lifetime <= MAX_SAFE_INTEGER
    ensures var bytes := ChallengeBytes(x, deviceId, now, lifetime, random);
      |bytes| == 32 && InBase(bytes, 256) && Value(bytes[..8], 256) == now + lifetime
  {
    Big64Reads(now + lifetime);
    DigitsOfCanonical(now + lifetime, 256);
    var bytes := ChallengeBytes(x, deviceId, now, lifetime, random);
    assert bytes[..8] == Big64(now + lifetime);
  }

  function IssueChallenge(x: Primitives, deviceId: string, now: nat, lifetime: nat, random: Bytes): string
    requires InBase(ChallengeBytes(x, deviceId, now, lifetime, random), 256)
  {
    Write32(ChallengeBytes(x, deviceId, now, lifetime, random))
  }

  /** A challenge reads back with its expiry for its own device, and for another exactly if the tags collide. */
  lemma {:induction false} IssuedChallengeReads(
    x: Primitives, deviceId: string, other: string, now: nat, lifetime: nat, random: Bytes)
    requires Wellbehaved(x) && |random| == RANDOM_BYTES && InBase(random, 256) && now + lifetime <= MAX_SAFE_INTEGER
    ensures InBase(ChallengeBytes(x, deviceId, now, lifetime, random), 256)
    ensures var nonce := IssueChallenge(x, deviceId, now, lifetime, random);
      && Canonical43(nonce) && ReadChallenge(x, deviceId, nonce) == Some(now + lifetime)
      && (ReadChallenge(x, other, nonce).Some? <==>
            x.tag(other, Big64(now + lifetime) + random) == x.tag(deviceId, Big64(now + lifetime) + random))
  {
    ChallengeShape(x, deviceId, now, lifetime, random);
    Big64Reads(now + lifetime);
    var unsigned := Big64(now + lifetime) + random;
    var bytes := ChallengeBytes(x, deviceId, now, lifetime, random);
    WriteReads(bytes);
    assert bytes[..8 + RANDOM_BYTES] == unsigned && bytes[8 + RANDOM_BYTES..] == x.tag(deviceId, unsigned);
  }

  /** Texts of the same bytes are the same challenge, for every device. */
  lemma {:induction false} SameBytesSameChallenge(x: Primitives, deviceId: string, a: string, b: string)
    requires Shaped(a) && Shaped(b) && Read32(a) == Read32(b)
    ensures ReadChallenge(x, deviceId, a) == ReadChallenge(x, deviceId, b)
  {
  }

  // ----- one request -----

  /**
   * `log` is what happened to `consumed`; `clock` and `steady` follow the clock; `accepted` and `audit` are history.
   */
  datatype State = State(
    consumed: map<string, int>, devices: map<string, Device>, accepted: seq<Accepted>, audit: seq<Audit>,
    log: seq<Happening>, clock: int, steady: bool)

  datatype Audit = Denied(deviceId: string, reason: Reason) | Authenticated(deviceId: string, counter: int)

  function ReadClock(s: State, now: int): State {
    s.(clock := now, steady := s.steady && s.clock <= now)
  }

  function Sweep(s: State, now: int): State {
    ReadClock(s, now).(consumed := Live(s.consumed, now), log := s.log + [Pruned(now)])
  }

  function Payload(r: Request, expiresAt: int): Signed {
    Signed(r.verb, r.path, r.body, r.nonce, r.counter, r.timestamp, expiresAt)
  }

  function Distance(a: int, b: int): nat { if a <= b then b - a else a - b }

  /** The readings of the clock in one call, and whether the store takes the new counter. */
  datatype Circumstances = Circumstances(first: int, second: int, third: int, stored: bool)

  predicate CounterInRange(counter: int) { 1 <= counter <= MAX_SAFE_INTEGER }

  /** The first failing check that looks at the clock, the device and the signature. */
  function DeviceRefusal(
    devices: map<string, Device>, x: Primitives, skew: nat, r: Request, expiresAt: int, now: int): Option<Reason>
  {
    if expiresAt <= now then Some(ChallengeExpired)
    else if x.timeOf(r.timestamp).None? || Distance(now, x.timeOf(r.timestamp).value) > skew
      then Some(TimestampOutsideWindow)
    else if r.deviceId !in devices then Some(DeviceMissing)
    else
      var d := devices[r.deviceId];
      if !d.active || r.counter <= d.lastCounter then Some(RevokedOrCounterReplayed)
      else if !x.verifies(Payload(r, expiresAt), d.signingKey, r.signature) then Some(SignatureInvalid)
      else None
  }

  /** The first failing check, once the expiry of the challenge is known. */
  function Refusal(s: State, x: Primitives, skew: nat, r: Request, expiresAt: int, c: Circumstances): Option<Reason> {
    if r.nonce in s.consumed && s.consumed[r.nonce] > c.first then Some(ChallengeReplayed)
    else
      match DeviceRefusal(s.devices, x, skew, r, expiresAt, c.second)
      case Some(reason) => Some(reason)
      case None => if !c.stored || !CounterInRange(r.counter) then Some(CounterRace) else None
  }

  function Deny(s: State, deviceId: string, reason: Reason): State {
    s.(audit := s.audit + [Denied(deviceId, reason)])
  }

  /** The clock after a refusal: an early one comes before the second reading. */
  function Verify(s: State, x: Primitives, skew: nat, r: Request, c: Circumstances): (State, Option<Reason>) {
    match ReadChallenge(x, r.deviceId, r.nonce)
    case None => (Deny(s, r.deviceId, ChallengeMissing), Some(ChallengeMissing))
    case Some(expiresAt) =>
      var swept := Sweep(s, c.first);
      match Refusal(s, x, skew, r, expiresAt, c)
      case Some(reason) =>
        (Deny(if reason == ChallengeReplayed then swept else ReadClock(swept, c.second), r.deviceId, reason),
          Some(reason))
      case None => (Accept(ReadClock(swept, c.second), r, expiresAt, c.third), None)
  }

  /** The state once a request is in the store and in the cache, before the last sweep. */
  function Recorded(s: State, r: Request, expiresAt: int): State
    requires r.deviceId in s.devices
  {
    var d := s.devices[r.deviceId];
    s.(devices := s.devices[r.deviceId := d.(lastCounter := r.counter)],
       consumed := s.consumed[r.nonce := expiresAt],
       log := s.log + [Remembered(r.nonce, expiresAt, s.clock, |s.log|)],
       accepted := s.accepted + [Accepted(r, expiresAt, s.clock, d.signingKey, d.epoch)])
  }

  function Accept(s: State, r: Request, expiresAt: int, third: int): State
    requires r.deviceId in s.devices
  {
    var swept := Sweep(Recorded(s, r, expiresAt), third);
    swept.(audit := swept.audit + [Authenticated(r.deviceId, r.counter)])
  }

  // ----- what every request keeps -----

  /** Unexpired accepted challenges are remembered, and only accepted ones are. */
  ghost predicate Recalls(s: State) {
    && (forall i | 0 <= i < |s.accepted| && s.accepted[i].expiresAt > s.clock ::
         s.accepted[i].request.nonce in s.consumed)
    && (forall n | n in s.consumed :: exists i | 0 <= i < |s.accepted| :: s.accepted[i].request.nonce == n)
  }

  ghost predicate NoncesDiffer(accepted: seq<Accepted>) {
    forall i, j | 0 <= i < j < |accepted| :: accepted[i].request.nonce != accepted[j].request.nonce
  }

  /** The store is at or past every accepted counter, and within one registration each passed the earlier ones. */
  ghost predicate CountersRise(accepted: seq<Accepted>, devices: map<string, Device>) {
    && (forall i | 0 <= i < |accepted| ::
          var a := accepted[i];
          && a.request.deviceId in devices && a.epoch <= devices[a.request.deviceId].epoch
          && (a.epoch == devices[a.request.deviceId].epoch ==>
               a.request.counter <= devices[a.request.deviceId].lastCounter))
    && (forall i, j | 0 <= i < j < |accepted| && accepted[i].request.deviceId == accepted[j].request.deviceId ::
          && accepted[i].epoch <= accepted[j].epoch
          && (accepted[i].epoch == accepted[j].epoch ==> accepted[i].request.counter < accepted[j].request.counter))
  }

  /** Accepted requests answer a challenge of their device in time, and are signed by its key. */
  ghost predicate Genuine(x: Primitives, skew: nat, a: Accepted) {
    && ReadChallenge(x, a.request.deviceId, a.request.nonce) == Some(a.expiresAt)
    && a.at < a.expiresAt
    && x.timeOf(a.request.timestamp).Some?
    && a.at - skew <= x.timeOf(a.request.timestamp).value <= a.at + skew
    && x.verifies(Payload(a.request, a.expiresAt), a.key, a.request.signature)
  }

  ghost predicate CarriesExpiries(s: State) {
    && (forall n | n in s.consumed :: ExpiryOf(n) == Some(s.consumed[n]))
    && (forall i | 0 <= i < |s.accepted| :: ExpiryOf(s.accepted[i].request.nonce) == Some(s.accepted[i].expiresAt))
  }

  ghost predicate Sound(s: State, x: Primitives, skew: nat) {
    && CarriesExpiries(s)
    && (forall i | 0 <= i < |s.accepted| :: Genuine(x, skew, s.accepted[i]))
    && CountersRise(s.accepted, s.devices)
    && s.consumed == Tracked(s.log) && Lawful(s.log)
    && (s.steady ==> Recalls(s) && NoncesDiffer(s.accepted))
  }

  lemma {:induction false} SweepKeepsSound(s: State, x: Primitives, skew: nat, now: int)
    requires Sound(s, x, skew)
    ensures Sound(Sweep(s, now), x, skew)
  {
    var after := Sweep(s, now);
    OneMore(s.log, Pruned(now));
    PruneKeepsLawful(s.log, now);
    if after.steady {
      forall i | 0 <= i < |s.accepted| && s.accepted[i].expiresAt > now
        ensures s.accepted[i].request.nonce in after.consumed
      {
        assert s.consumed[s.accepted[i].request.nonce] == s.accepted[i].expiresAt;
      }
    }
  }

  lemma {:induction false} ClockKeepsSound(s: State, x: Primitives, skew: nat, now: int)
    requires Sound(s, x, skew)
    ensures Sound(ReadClock(s, now), x, skew)
  {
  }

  lemma {:induction false} RecordedCounters(s: State, r: Request, expiresAt: int)
    requires CountersRise(s.accepted, s.devices)
    requires r.deviceId in s.devices && s.devices[r.deviceId].lastCounter < r.counter
    ensures CountersRise(Recorded(s, r, expiresAt).accepted, Recorded(s, r, expiresAt).devices)
  {
  }

  lemma {:induction false} NewNonceDiffers(s: State, nonce: string)
    requires Recalls(s) && CarriesExpiries(s) && nonce !in s.consumed
    requires ExpiryOf(nonce).Some? && s.clock < ExpiryOf(nonce).value
    ensures forall i | 0 <= i < |s.accepted| :: s.accepted[i].request.nonce != nonce
  {
  }

  lemma {:induction false} RecordedMemory(s: State, r: Request, expiresAt: int)
    requires CarriesExpiries(s) && Recalls(s) && NoncesDiffer(s.accepted)
    requires r.deviceId in s.devices && ExpiryOf(r.nonce) == Some(expiresAt)
    requires s.clock < expiresAt && r.nonce !in s.consumed
    ensures Recalls(Recorded(s, r, expiresAt)) && NoncesDiffer(Recorded(s, r, expiresAt).accepted)
  {
    NewNonceDiffers(s, r.nonce);
    RecalledAfter(s, Recorded(s, r, expiresAt), r.nonce);
  }

  lemma {:induction false} RecalledAfter(s: State, after: State, nonce: string)
    requires Recalls(s) && s.accepted <= after.accepted && after.clock == s.clock
    requires |after.accepted| == |s.accepted| + 1 && after.accepted[|s.accepted|].request.nonce == nonce
    requires after.consumed.Keys == s.consumed.Keys + {nonce}
    ensures Recalls(after)
  {
    forall n | n in after.consumed
      ensures exists i | 0 <= i < |after.accepted| :: after.accepted[i].request.nonce == n
    {
      if n == nonce {
        assert after.accepted[|s.accepted|].request.nonce == n;
      } else {
        var i :| 0 <= i < |s.accepted| && s.accepted[i].request.nonce == n;
        assert after.accepted[i].request.nonce == n;
      }
    }
  }

  lemma {:induction false} RecordedGenuine(s: State, x: Primitives, skew: nat, r: Request, expiresAt: int)
    requires forall i | 0 <= i < |s.accepted| :: Genuine(x, skew, s.accepted[i])
    requires r.deviceId in s.devices
    requires Genuine(x, skew,
      Accepted(r, expiresAt, s.clock, s.devices[r.deviceId].signingKey, s.devices[r.deviceId].epoch))
    ensures forall i | 0 <= i < |Recorded(s, r, expiresAt).accepted| ::
      Genuine(x, skew, Recorded(s, r, expiresAt).accepted[i])
  {
  }

  lemma {:induction false} RecordedKeepsSound(s: State, x: Primitives, skew: nat, r: Request, expiresAt: int)
    requires Sound(s, x, skew) && ReadChallenge(x, r.deviceId, r.nonce) == Some(expiresAt)
    requires r.deviceId in s.devices && s.devices[r.deviceId].lastCounter < r.counter && r.nonce !in s.consumed
    requires Genuine(x, skew,
      Accepted(r, expiresAt, s.clock, s.devices[r.deviceId].signingKey, s.devices[r.deviceId].epoch))
    ensures Sound(Recorded(s, r, expiresAt), x, skew)
  {
    RecordedCounters(s, r, expiresAt);
    RecordedGenuine(s, x, skew, r, expiresAt);
    if s.steady { RecordedMemory(s, r, expiresAt); }
    var h := Remembered(r.nonce, expiresAt, s.clock, |s.log|);
    OneMore(s.log, h);
    assert s.log[..|s.log|] == s.log;
    RememberKeepsLawful(s.log, h);
    assert CarriesExpiries(Recorded(s, r, expiresAt));
  }

  lemma {:induction false} AcceptKeepsSound(
    s: State, x: Primitives, skew: nat, r: Request, c: Circumstances, expiresAt: int)
    requires Sound(s, x, skew) && ReadChallenge(x, r.deviceId, r.nonce) == Some(expiresAt)
    requires Refusal(s, x, skew, r, expiresAt, c) == None
    ensures Sound(Accept(ReadClock(Sweep(s, c.first), c.second), r, expiresAt, c.third), x, skew)
  {
    var ready := ReadClock(Sweep(s, c.first), c.second);
    SweepKeepsSound(s, x, skew, c.first);
    ClockKeepsSound(Sweep(s, c.first), x, skew, c.second);
    RecordedKeepsSound(ready, x, skew, r, expiresAt);
    SweepKeepsSound(Recorded(ready, r, expiresAt), x, skew, c.third);
  }

  lemma {:induction false} DenyKeepsSound(s: State, x: Primitives, skew: nat, deviceId: string, reason: Reason)
    requires Sound(s, x, skew)
    ensures Sound(Deny(s, deviceId, reason), x, skew)
  {
  }

  lemma {:induction false} VerifyKeepsSound(s: State, x: Primitives, skew: nat, r: Request, c: Circumstances)
    requires Sound(s, x, skew)
    ensures Sound(Verify(s, x, skew, r, c).0, x, skew)
  {
    match ReadChallenge(x, r.deviceId, r.nonce)
    case None => DenyKeepsSound(s, x, skew, r.deviceId, ChallengeMissing);
    case Some(expiresAt) =>
      match Refusal(s, x, skew, r, expiresAt, c)
      case None => AcceptKeepsSound(s, x, skew, r, c, expiresAt);
      case Some(reason) =>
        var swept := Sweep(s, c.first);
        SweepKeepsSound(s, x, skew, c.first);
        ClockKeepsSound(swept, x, skew, c.second);
        DenyKeepsSound(if reason == ChallengeReplayed then swept else ReadClock(swept, c.second), x, skew, r.deviceId,
          reason);
  }

  lemma {:induction false} MemoryIsExact(s: State, x: Primitives, nonce: string, expiresAt: int)
    requires CarriesExpiries(s) && Recalls(s)
    requires ExpiryOf(nonce) == Some(expiresAt) && s.clock < expiresAt
    ensures nonce in s.consumed <==> exists i | 0 <= i < |s.accepted| :: s.accepted[i].request.nonce == nonce
  {
    if i :| 0 <= i < |s.accepted| && s.accepted[i].request.nonce == nonce {
      assert s.accepted[i].expiresAt == expiresAt;
    }
  }

  /**
   * When the clock never steps back, a request is accepted exactly when it answers an unexpired challenge of its
   * device in a text that was never accepted before, in the clock window, with a new counter and a good signature.
   */
  lemma {:induction false} AcceptanceIsExact(s: State, x: Primitives, skew: nat, r: Request, c: Circumstances)
    requires Sound(s, x, skew) && s.steady && s.clock <= c.first <= c.second
    ensures Verify(s, x, skew, r, c).1.None? <==>
      && ReadChallenge(x, r.deviceId, r.nonce).Some?
      && (forall i | 0 <= i < |s.accepted| :: s.accepted[i].request.nonce != r.nonce)
      && r.deviceId in s.devices && s.devices[r.deviceId].active && s.devices[r.deviceId].lastCounter < r.counter
      && c.stored && CounterInRange(r.counter)
      && Genuine(x, skew, Accepted(r, ReadChallenge(x, r.deviceId, r.nonce).value, c.second,
                                   s.devices[r.deviceId].signingKey, s.devices[r.deviceId].epoch))
  {
    var challenge := ReadChallenge(x, r.deviceId, r.nonce);
    if challenge.Some? && c.second < challenge.value {
      MemoryIsExact(s, x, r.nonce, challenge.value);
      assert r.nonce in s.consumed ==> s.consumed[r.nonce] == challenge.value;
    }
  }

  // ----- runs -----

  /** Requests, and changes other parts of the program make to the store. */
  datatype Event = Requested(request: Request, circumstances: Circumstances)
    | StoreChanged(devices: map<string, Device>)

  /** The store keeps every device, and lowers a counter only by registering the device anew. */
  ghost predicate OnlyAdvances(before: map<string, Device>, after: map<string, Device>) {
    forall d | d in before ::
      && d in after && before[d].epoch <= after[d].epoch
      && (before[d].epoch == after[d].epoch ==> before[d].lastCounter <= after[d].lastCounter)
  }

  /** Registering fails for an active device and restarts a revoked one. */
  function RegisterDevice(devices: map<string, Device>, id: string, key: string): map<string, Device> {
    if id !in devices then devices[id := Device(true, 0, key, 0)]
    else if devices[id].active then devices
    else devices[id := Device(true, 0, key, devices[id].epoch + 1)]
  }

  function RevokeDevice(devices: map<string, Device>, id: string): map<string, Device> {
    if id in devices && devices[id].active then devices[id := devices[id].(active := false)] else devices
  }

  function CounterAdvanced(devices: map<string, Device>, id: string, counter: int): map<string, Device> {
    if CounterInRange(counter) && id in devices && devices[id].active && devices[id].lastCounter < counter
    then devices[id := devices[id].(lastCounter := counter)]
    else devices
  }

  /** All that the store does to devices only advances them. */
  lemma {:induction false} StoreOperationsOnlyAdvance(
    devices: map<string, Device>, id: string, key: string, counter: int)
    ensures OnlyAdvances(devices, RegisterDevice(devices, id, key))
    ensures OnlyAdvances(devices, RevokeDevice(devices, id))
    ensures OnlyAdvances(devices, CounterAdvanced(devices, id, counter))
  {
  }

  function Fresh(devices: map<string, Device>, start: int): State {
    State(map[], devices, [], [], [], start, true)
  }

  ghost function After(s: State, x: Primitives, skew: nat, e: Event): State {
    match e
    case Requested(r, c) => Verify(s, x, skew, r, c).0
    case StoreChanged(devices) => if OnlyAdvances(s.devices, devices) then s.(devices := devices) else s
  }

  ghost function Run(s: State, x: Primitives, skew: nat, events: seq<Event>): State {
    if events == [] then s else After(Run(s, x, skew, events[..|events| - 1]), x, skew, events[|events| - 1])
  }

  /** What holds in every run: genuine requests, rising counters, and with a steady clock no challenge text twice. */
  lemma {:induction false} EveryRunIsSound(
    devices: map<string, Device>, start: int, x: Primitives, skew: nat, events: seq<Event>)
    ensures Sound(Run(Fresh(devices, start), x, skew, events), x, skew)
  {
    var s := Fresh(devices, start);
    if events != [] {
      var before := Run(s, x, skew, events[..|events| - 1]);
      EveryRunIsSound(devices, start, x, skew, events[..|events| - 1]);
      match events[|events| - 1]
      case Requested(r, c) => VerifyKeepsSound(before, x, skew, r, c);
      case StoreChanged(after) =>
        if OnlyAdvances(before.devices, after) {
          assert CountersRise(before.accepted, after);
        }
    }
  }

  // ----- the authenticator -----

  /** The part of the store that authentication uses. */
  class DeviceStore {
    var devices: map<string, Device>
    var audit: seq<Audit>

    constructor (devices: map<string, Device>)
      ensures this.devices == devices && audit == []
    {
      this.devices, audit := devices, [];
    }

    /** Takes a higher counter of an active device, or throws; the database may also fail by itself. */
    method AdvanceDeviceCounter(deviceId: string, counter: int, working: bool) returns (ok: bool)
      modifies this`devices
      ensures ok <==>
        && working && CounterInRange(counter)
        && deviceId in old(devices) && old(devices)[deviceId].active && old(devices)[deviceId].lastCounter < counter
      ensures devices == if ok then CounterAdvanced(old(devices), deviceId, counter) else old(devices)
    {
      if !CounterInRange(counter) || !working { return false; }
      if deviceId !in devices || !devices[deviceId].active || devices[deviceId].lastCounter >= counter { return false; }
      devices := devices[deviceId := devices[deviceId].(lastCounter := counter)];
      return true;
    }

    method WriteAudit(entry: Audit)
      modifies this`audit
      ensures audit == old(audit) + [entry]
    {
      audit := audit + [entry];
    }
  }

  class DeviceAuthenticator {
    const store: DeviceStore
    const x: Primitives
    const maximumClockSkewMs: nat
    var consumedChallenges: map<string, int>
    ghost var accepted: seq<Accepted>
    ghost var log: seq<Happening>
    ghost var clock: int
    ghost var steady: bool

    ghost function Now(): State
      reads this, store
    {
      State(consumedChallenges, store.devices, accepted, store.audit, log, clock, steady)
    }

    ghost predicate Valid()
      reads this, store
    {
      Sound(Now(), x, maximumClockSkewMs)
    }

    constructor (store: DeviceStore, x: Primitives, maximumClockSkewMs: nat, now: int)
      ensures Valid() && this.store == store && this.x == x && this.maximumClockSkewMs == maximumClockSkewMs
      ensures Now() == State(map[], store.devices, [], store.audit, [], now, true)
    {
      this.store, this.x, this.maximumClockSkewMs := store, x, maximumClockSkewMs;
      consumedChallenges := map[];
      accepted, log, clock, steady := [], [], now, true;
    }

    method SweepConsumed(now: int)
      modifies this
      ensures Now() == Sweep(old(Now()), now)
    {
      consumedChallenges := Live(consumedChallenges, now);
      log := log + [Pruned(now)];
      steady, clock := steady && clock <= now, now;
    }

    method Reject(deviceId: string, reason: Reason) returns (r: Result<Device, Reason>)
      modifies store`audit
      ensures r == Err(reason) && Now() == Deny(old(Now()), deviceId, reason)
    {
      store.WriteAudit(Denied(deviceId, reason));
      return Err(reason);
    }

    /** The checks between the two looks at the cache. */
    method CheckDevice(r: Request, now: int, expiresAt: int) returns (reason: Option<Reason>)
      ensures reason == DeviceRefusal(store.devices, x, maximumClockSkewMs, r, expiresAt, now)
    {
      if expiresAt <= now { return Some(ChallengeExpired); }
      var signedAt := x.timeOf(r.timestamp);
      if signedAt.None? || Distance(now, signedAt.value) > maximumClockSkewMs { return Some(TimestampOutsideWindow); }
      if r.deviceId !in store.devices { return Some(DeviceMissing); }
      var device := store.devices[r.deviceId];
      if !device.active || r.counter <= device.lastCounter { return Some(RevokedOrCounterReplayed); }
      if !x.verifies(Payload(r, expiresAt), device.signingKey, r.signature) { return Some(SignatureInvalid); }
      return None;
    }

    /** Consumes the challenge of a request whose counter the store has taken. */
    method Consume(r: Request, expiresAt: int, device: Device, third: int)
      requires r.deviceId in store.devices
      modifies this, store`audit
      ensures store.devices == old(store.devices)
      ensures var before := old(Now());
        var recorded := before.(
          consumed := before.consumed[r.nonce := expiresAt],
          log := before.log + [Remembered(r.nonce, expiresAt, before.clock, |before.log|)],
          accepted := before.accepted + [Accepted(r, expiresAt, before.clock, device.signingKey, device.epoch)]);
        Now() == Sweep(recorded, third).(audit := before.audit + [Authenticated(r.deviceId, r.counter)])
    {
      accepted := accepted + [Accepted(r, expiresAt, clock, device.signingKey, device.epoch)];
      consumedChallenges := consumedChallenges[r.nonce := expiresAt];
      log := log + [Remembered(r.nonce, expiresAt, clock, |log|)];
      SweepConsumed(third);
      store.WriteAudit(Authenticated(r.deviceId, r.counter));
    }

    /** Everything after the challenge has been read. */
    method CheckRequest(r: Request, c: Circumstances, expiresAt: int) returns (result: Result<Device, Reason>)
      requires ReadChallenge(x, r.deviceId, r.nonce) == Some(expiresAt)
      modifies this, store
      ensures Now() == Verify(old(Now()), x, maximumClockSkewMs, r, c).0
      ensures
        match Verify(old(Now()), x, maximumClockSkewMs, r, c).1
        case Some(reason) => result == Err(reason)
        case None => r.deviceId in store.devices && result == Ok(store.devices[r.deviceId])
    {
      SweepConsumed(c.first);
      if r.nonce in consumedChallenges {
        result := Reject(r.deviceId, ChallengeReplayed);
        return;
      }
      steady, clock := steady && clock <= c.second, c.second;
      var reason := CheckDevice(r, c.second, expiresAt);
      if reason.Some? {
        result := Reject(r.deviceId, reason.value);
        return;
      }
      var device := store.devices[r.deviceId];
      var ok := store.AdvanceDeviceCounter(r.deviceId, r.counter, c.stored);
      if !ok {
        result := Reject(r.deviceId, CounterRace);
        return;
      }
      Consume(r, expiresAt, device, c.third);
      return Ok(store.devices[r.deviceId]);
    }

    method VerifyRequest(r: Request, c: Circumstances) returns (result: Result<Device, Reason>)
      requires Valid()
      modifies this, store
      ensures Valid()
      ensures Now() == Verify(old(Now()), x, maximumClockSkewMs, r, c).0
      ensures
        match Verify(old(Now()), x, maximumClockSkewMs, r, c).1
        case Some(reason) => result == Err(reason)
        case None => r.deviceId in store.devices && result == Ok(store.devices[r.deviceId])
    {
      VerifyKeepsSound(Now(), x, maximumClockSkewMs, r, c);
      var challenge := ReadChallenge(x, r.deviceId, r.nonce);
      if challenge.None? {
        result := Reject(r.deviceId, ChallengeMissing);
      } else {
        result := CheckRequest(r, c, challenge.value);
      }
    }
  }
}
