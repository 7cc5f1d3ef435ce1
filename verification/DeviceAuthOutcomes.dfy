/** What one signed request does: every refusal with its reason, and the state that an accepted one leaves. */
module DeviceAuthOutcomes {
  import opened Wrappers
  import opened Radix
  import opened Base64Url
  import opened ReplayCache
  import opened DeviceAuth

  // ----- the challenge -----

  /** The number of eight bytes, the most significant first. */
  function BigEndian64(b: Bytes): int
    requires |b| >= 8
  {
    0x100_0000_0000_0000 * b[0] + 0x1_0000_0000_0000 * b[1] + 0x100_0000_0000 * b[2] + 0x1_0000_0000 * b[3]
    + 0x100_0000 * b[4] + 0x1_0000 * b[5] + 0x100 * b[6] + b[7]
  }

  lemma {:induction false} NextDigit(b: Bytes, i: nat)
    requires i < |b|
    ensures Value(b[..i + 1], 256) == Value(b[..i], 256) * 256 + b[i]
  {
    assert b[..i + 1][..i] == b[..i];
  }

  lemma {:induction false} FirstEight(b: Bytes)
    requires |b| >= 8
    ensures Value(b[..8], 256) == BigEndian64(b)
  {
    NextDigit(b, 0);
    NextDigit(b, 1);
    NextDigit(b, 2);
    NextDigit(b, 3);
    NextDigit(b, 4);
    NextDigit(b, 5);
    NextDigit(b, 6);
    NextDigit(b, 7);
  }

  /**
   * A text is a challenge of the device exactly when its 43 base64url letters read as 32 bytes whose last twelve are
   * the tag over the first twenty; it expires at the number of the first eight, a safe integer.
   */
  lemma {:induction false} ChallengeReadsExactly(x: Primitives, deviceId: string, nonce: string, expiresAt: int)
    ensures ReadChallenge(x, deviceId, nonce) == Some(expiresAt) <==>
      && |nonce| == 43 && (forall i | 0 <= i < 43 :: InAlphabet(nonce[i]))
      && var bytes := Read32(nonce);
         && |bytes| == 32 && bytes[20..] == x.tag(deviceId, bytes[..20])
         && expiresAt == BigEndian64(bytes) && expiresAt <= 9_007_199_254_740_991
  {
    if |Read32(nonce)| == 32 { FirstEight(Read32(nonce)); }
  }

  // ----- refusals -----

  /** The device's clock is at most the skew away from the laptop's, either way. */
  predicate InWindow(x: Primitives, skew: nat, timestamp: string, now: int) {
    x.timeOf(timestamp).Some? && now - skew <= x.timeOf(timestamp).value <= now + skew
  }

  predicate Replayed(s: State, nonce: string, now: int) { nonce in s.consumed && now < s.consumed[nonce] }

  predicate CounterIsNew(s: State, r: Request) {
    r.deviceId in s.devices && s.devices[r.deviceId].active && s.devices[r.deviceId].lastCounter < r.counter
  }

  predicate SignatureIsGood(s: State, x: Primitives, r: Request, expiresAt: int) {
    && r.deviceId in s.devices
    && x.verifies(Signed(r.verb, r.path, r.body, r.nonce, r.counter, r.timestamp, expiresAt),
         s.devices[r.deviceId].signingKey, r.signature)
  }

  /** Each reason is given exactly when its check is the first to fail. */
  lemma {:induction false} RefusedExactly(
    s: State, x: Primitives, skew: nat, r: Request, c: Circumstances, expiresAt: int)
    requires ReadChallenge(x, r.deviceId, r.nonce) == Some(expiresAt)
    ensures var reason := Verify(s, x, skew, r, c).1;
      var unexpired := !Replayed(s, r.nonce, c.first) && c.second < expiresAt;
      var timely := unexpired && InWindow(x, skew, r.timestamp, c.second);
      && (reason == Some(ChallengeReplayed) <==> Replayed(s, r.nonce, c.first))
      && (reason == Some(ChallengeExpired) <==> !Replayed(s, r.nonce, c.first) && expiresAt <= c.second)
      && (reason == Some(TimestampOutsideWindow) <==> unexpired && !InWindow(x, skew, r.timestamp, c.second))
      && (reason == Some(DeviceMissing) <==> timely && r.deviceId !in s.devices)
      && (reason == Some(RevokedOrCounterReplayed) <==> timely && r.deviceId in s.devices && !CounterIsNew(s, r))
      && (reason == Some(SignatureInvalid) <==>
            timely && CounterIsNew(s, r) && !SignatureIsGood(s, x, r, expiresAt))
      && (reason == Some(CounterRace) <==>
            && timely && CounterIsNew(s, r) && SignatureIsGood(s, x, r, expiresAt)
            && !(c.stored && 1 <= r.counter <= 9_007_199_254_740_991))
      && (reason == None <==>
            && timely && CounterIsNew(s, r) && SignatureIsGood(s, x, r, expiresAt)
            && c.stored && 1 <= r.counter <= 9_007_199_254_740_991)
  {
  }

  /** Whatever else is wrong with it, a request without a challenge of its device is refused for that. */
  lemma {:induction false} NoChallengeNoRequest(s: State, x: Primitives, skew: nat, r: Request, c: Circumstances)
    ensures Verify(s, x, skew, r, c).1 == Some(ChallengeMissing) <==> ReadChallenge(x, r.deviceId, r.nonce).None?
  {
  }

  /**
   * Both edges of the window belong to it, and a millisecond beyond either does not: a request that is good otherwise
   * is accepted when it was signed up to the skew before or after, and refused for its timestamp beyond that.
   */
  lemma {:induction false} WindowEdges(
    s: State, x: Primitives, skew: nat, r: Request, c: Circumstances, expiresAt: int, signedAt: int)
    requires ReadChallenge(x, r.deviceId, r.nonce) == Some(expiresAt) && x.timeOf(r.timestamp) == Some(signedAt)
    requires !Replayed(s, r.nonce, c.first) && c.second < expiresAt
    requires CounterIsNew(s, r) && SignatureIsGood(s, x, r, expiresAt)
    requires c.stored && 1 <= r.counter <= 9_007_199_254_740_991
    ensures var reason := Verify(s, x, skew, r, c).1;
      && (signedAt == c.second - skew || signedAt == c.second + skew ==> reason == None)
      && (signedAt == c.second - skew - 1 || signedAt == c.second + skew + 1 ==>
            reason == Some(TimestampOutsideWindow))
  {
    RefusedExactly(s, x, skew, r, c, expiresAt);
  }

  // ----- what is left behind -----

  /** A refused request changes neither devices nor history; only expired challenges may be forgotten. */
  lemma {:induction false} RefusedLeaves(
    s: State, x: Primitives, skew: nat, r: Request, c: Circumstances, reason: Reason)
    requires Verify(s, x, skew, r, c).1 == Some(reason)
    ensures var after := Verify(s, x, skew, r, c).0;
      && after.devices == s.devices && after.accepted == s.accepted
      && after.audit == s.audit + [Denied(r.deviceId, reason)]
      && after.consumed == if reason == ChallengeMissing then s.consumed
                           else map n | n in s.consumed && c.first < s.consumed[n] :: s.consumed[n]
  {
    assert Live(s.consumed, c.first) == map n | n in s.consumed && c.first < s.consumed[n] :: s.consumed[n];
  }

  /** An accepted request moves its device's counter, and no other; its challenge is remembered until it expires. */
  lemma {:induction false} AcceptedLeaves(
    s: State, x: Primitives, skew: nat, r: Request, c: Circumstances, expiresAt: int)
    requires ReadChallenge(x, r.deviceId, r.nonce) == Some(expiresAt) && Verify(s, x, skew, r, c).1 == None
    ensures r.deviceId in s.devices
    ensures var after, d := Verify(s, x, skew, r, c).0, s.devices[r.deviceId];
      && after.devices == s.devices[r.deviceId := Device(true, r.counter, d.signingKey, d.epoch)]
      && after.accepted == s.accepted + [Accepted(r, expiresAt, c.second, d.signingKey, d.epoch)]
      && after.audit == s.audit + [Authenticated(r.deviceId, r.counter)]
      && (forall n :: n in after.consumed <==>
            if n == r.nonce then c.third < expiresAt
            else n in s.consumed && c.first < s.consumed[n] && c.third < s.consumed[n])
      && (forall n | n in after.consumed :: after.consumed[n] == if n == r.nonce then expiresAt else s.consumed[n])
  {
    var swept := ReadClock(Sweep(s, c.first), c.second);
    assert Refusal(s, x, skew, r, expiresAt, c) == None;
    assert Verify(s, x, skew, r, c).0.consumed == Live(swept.consumed[r.nonce := expiresAt], c.third);
  }
}
