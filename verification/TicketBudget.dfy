/** Ticket issuance budgets of the relay: one window for each access token. */
module TicketBudget {
  import opened Wrappers
  import opened SlidingWindow

  const WINDOW := 10_000
  const PER_TOKEN := 20
  const CAPACITY := 10_000

  datatype Bucket = Bucket(windowStartedAt: int, count: nat)
  datatype Denial = CapacityExhausted | RateExceeded

  predicate Over(b: Bucket, now: int) { now - b.windowStartedAt >= WINDOW }

  function Live(buckets: map<string, Bucket>, now: int): map<string, Bucket> {
    map t | t in buckets && !Over(buckets[t], now) :: buckets[t]
  }

  /** Windows of one token never overlap, and a forgotten bucket is over. */
  ghost predicate Spaced(h: seq<Grant<string>>, clock: int, buckets: map<string, Bucket>) {
    && (forall t: string :: Windowed(h, Some(t), WINDOW))
    && (forall i | 0 <= i < |h| :: h[i].at <= clock)
    && (forall i | 0 <= i < |h| ::
          if h[i].key in buckets then
            h[i].start == buckets[h[i].key].windowStartedAt || h[i].start + WINDOW <= buckets[h[i].key].windowStartedAt
          else h[i].start + WINDOW <= clock)
    && (forall t | t in buckets :: buckets[t].windowStartedAt <= clock)
  }

  /** A bucket counts at least the tickets issued in its window, and no window goes over the budget. */
  ghost predicate Counted(h: seq<Grant<string>>, buckets: map<string, Bucket>) {
    && (forall t: string, s: int :: InWindow(h, Some(t), s) <= PER_TOKEN)
    && (forall t | t in buckets :: InWindow(h, Some(t), buckets[t].windowStartedAt) <= buckets[t].count)
  }

  ghost predicate Ledger(h: seq<Grant<string>>, clock: int, buckets: map<string, Bucket>) {
    Spaced(h, clock, buckets) && Counted(h, buckets)
  }

  /** The bucket a charge leaves behind. */
  function Charged(buckets: map<string, Bucket>, now: int, token: string): Bucket {
    if token in buckets && !Over(buckets[token], now)
    then Bucket(buckets[token].windowStartedAt, buckets[token].count + 1)
    else Bucket(now, 1)
  }

  /** The table after a charge; only one refused for lack of room is not entered. */
  function AfterCharge(buckets: map<string, Bucket>, now: int, token: string, noRoom: bool): map<string, Bucket> {
    var kept := if token !in buckets && |buckets| >= CAPACITY then Live(buckets, now) else buckets;
    if noRoom then kept else kept[token := Charged(buckets, now, token)]
  }

  lemma {:induction false} LiveFewer(buckets: map<string, Bucket>, now: int)
    ensures |Live(buckets, now)| <= |buckets|
    ensures |Live(buckets, now)| == |buckets| <==> forall t | t in buckets :: !Over(buckets[t], now)
  {
    var kept := Live(buckets, now);
    assert buckets.Keys == kept.Keys + (buckets.Keys - kept.Keys);
    assert |kept| == |kept.Keys| && |buckets| == |buckets.Keys|;
    if forall t | t in buckets :: !Over(buckets[t], now) {
      assert kept.Keys == buckets.Keys;
    } else {
      var t :| t in buckets && Over(buckets[t], now);
      assert t in buckets.Keys - kept.Keys;
    }
  }

  lemma {:induction false} LiveKeepsLedger(h: seq<Grant<string>>, clock: int, buckets: map<string, Bucket>, now: int)
    requires Ledger(h, clock, buckets) && clock <= now
    ensures Ledger(h, now, Live(buckets, now))
  {
    var kept := Live(buckets, now);
    forall i | 0 <= i < |h| && h[i].key !in kept ensures h[i].start + WINDOW <= now {
      assert h[i].key in buckets ==> Over(buckets[h[i].key], now);
    }
  }

  /** A refused charge is still counted against its bucket. */
  lemma {:induction false} RefusalKeepsLedger(
    h: seq<Grant<string>>, clock: int, buckets: map<string, Bucket>, now: int, token: string)
    requires Ledger(h, clock, buckets) && clock <= now
    requires token in buckets && !Over(buckets[token], now)
    ensures Ledger(h, now, buckets[token := Charged(buckets, now, token)])
  {
    var after := buckets[token := Charged(buckets, now, token)];
    forall t | t in after ensures InWindow(h, Some(t), after[t].windowStartedAt) <= after[t].count {
      assert t in buckets && after[t].windowStartedAt == buckets[t].windowStartedAt;
    }
  }

  lemma {:induction false} GrantSpaced(
    h: seq<Grant<string>>, clock: int, buckets: map<string, Bucket>, now: int, token: string, b: Bucket)
    requires Spaced(h, clock, buckets) && clock <= now && b == Charged(buckets, now, token)
    ensures Spaced(h + [Grant(now, b.windowStartedAt, token)], now, buckets[token := b])
  {
    var g := Grant(now, b.windowStartedAt, token);
    forall i | 0 <= i < |h| && h[i].key == token ensures h[i].start == g.start || h[i].start + WINDOW <= g.start { }
    forall t: string ensures Windowed(h + [g], Some(t), WINDOW) {
      assert Windowed(h, Some(t), WINDOW);
    }
  }

  lemma {:induction false} GrantCounted(
    h: seq<Grant<string>>, clock: int, buckets: map<string, Bucket>, now: int, token: string, b: Bucket)
    requires Ledger(h, clock, buckets) && clock <= now && b == Charged(buckets, now, token)
    requires b.count <= PER_TOKEN
    ensures Counted(h + [Grant(now, b.windowStartedAt, token)], buckets[token := b])
  {
    var g := Grant(now, b.windowStartedAt, token);
    if !(token in buckets && !Over(buckets[token], now)) {
      EmptyWindow(h, Some(token), now);
    }
    forall t: string, s: int
      ensures InWindow(h + [g], Some(t), s) == InWindow(h, Some(t), s) + (if token == t && g.start == s then 1 else 0)
    {
      CountOneMore(h, g, Some(t), s);
    }
  }

  lemma {:induction false} GrantKeepsLedger(
    h: seq<Grant<string>>, clock: int, buckets: map<string, Bucket>, now: int, token: string, b: Bucket)
    requires Ledger(h, clock, buckets) && clock <= now && b == Charged(buckets, now, token) && b.count <= PER_TOKEN
    ensures Ledger(h + [Grant(now, b.windowStartedAt, token)], now, buckets[token := b])
  {
    GrantSpaced(h, clock, buckets, now, token, b);
    GrantCounted(h, clock, buckets, now, token, b);
  }

  /**
   * A charge counts one more in the token's window of ten seconds, or starts one. The other buckets stay, but for those
   * whose window is over when a new token finds ten thousand of them.
   */
  lemma {:induction false} ChargedExactly(buckets: map<string, Bucket>, now: int, token: string, noRoom: bool)
    requires noRoom ==> token !in buckets
    ensures var after, crowded := AfterCharge(buckets, now, token, noRoom), token !in buckets && |buckets| >= 10_000;
      && (token in after <==> !noRoom)
      && (!noRoom ==>
            after[token] == if token in buckets && now < buckets[token].windowStartedAt + 10_000
                            then Bucket(buckets[token].windowStartedAt, buckets[token].count + 1) else Bucket(now, 1))
      && (forall t | t != token :: t in after <==>
            t in buckets && (crowded ==> now < buckets[t].windowStartedAt + 10_000))
      && (forall t | t != token && t in after :: after[t] == buckets[t])
  {
  }

  lemma {:induction false} RoomForOne(buckets: map<string, Bucket>, token: string, b: Bucket)
    requires |buckets| <= CAPACITY && (token in buckets || |buckets| < CAPACITY)
    ensures |buckets[token := b]| <= CAPACITY
  {
    var keys := buckets[token := b].Keys;
    assert keys == buckets.Keys + {token} && |buckets[token := b]| == |keys|;
    assert token in buckets ==> keys == buckets.Keys;
  }

  class Budget {
    var ticketBuckets: map<string, Bucket>
    ghost var history: seq<Grant<string>>   // every ticket issued
    ghost var clock: int                    // the last reading of the clock
    ghost var steady: bool                  // the clock never stepped back

    ghost predicate Valid()
      reads this
    {
      |ticketBuckets| <= CAPACITY && (steady ==> Ledger(history, clock, ticketBuckets))
    }

    constructor (now: int)
      ensures Valid() && history == [] && clock == now && steady && ticketBuckets == map[]
    {
      ticketBuckets, history, clock, steady := map[], [], now, true;
    }

    predicate Full(tokenId: string, now: int)
      reads this
    {
      tokenId !in ticketBuckets && |ticketBuckets| >= CAPACITY && |Live(ticketBuckets, now)| >= CAPACITY
    }

    predicate UsedUp(tokenId: string, now: int)
      reads this
    {
      tokenId in ticketBuckets && !Over(ticketBuckets[tokenId], now) && ticketBuckets[tokenId].count >= PER_TOKEN
    }

    /**
     * A new token is denied for lack of room exactly when ten thousand others have a window under way, and a known one
     * for its rate exactly when twenty charges were entered in a window that began less than ten seconds ago.
     */
    lemma {:induction false} DeniedExactly(tokenId: string, now: int)
      requires Valid()
      ensures Full(tokenId, now) <==>
        && tokenId !in ticketBuckets && |ticketBuckets| == 10_000
        && forall t | t in ticketBuckets :: now - ticketBuckets[t].windowStartedAt < 10_000
      ensures UsedUp(tokenId, now) <==>
        && tokenId in ticketBuckets && now - ticketBuckets[tokenId].windowStartedAt < 10_000
        && ticketBuckets[tokenId].count >= 20
    {
      LiveFewer(ticketBuckets, now);
    }

    /** Makes room for a new token by dropping the buckets whose window is over. */
    method Prune(tokenId: string, now: int)
      requires Valid()
      modifies this
      ensures Valid() && clock == now && steady == old(steady && clock <= now) && history == old(history)
      ensures ticketBuckets == if old(tokenId !in ticketBuckets && |ticketBuckets| >= CAPACITY)
                               then Live(old(ticketBuckets), now) else old(ticketBuckets)
    {
      steady := steady && clock <= now;
      if tokenId !in ticketBuckets && |ticketBuckets| >= CAPACITY {
        LiveFewer(ticketBuckets, now);
        if steady { LiveKeepsLedger(history, clock, ticketBuckets, now); }
        ticketBuckets := Live(ticketBuckets, now);
      }
      clock := now;
    }

    /** Enters the charged bucket; a charge over the budget is refused, but entered all the same. */
    method Charge(tokenId: string, bucket: Bucket) returns (granted: bool)
      requires Valid() && (tokenId in ticketBuckets || |ticketBuckets| < CAPACITY)
      requires bucket == Charged(ticketBuckets, clock, tokenId)
      modifies this`ticketBuckets, this`history
      ensures Valid() && granted == (bucket.count <= PER_TOKEN)
        && ticketBuckets == old(ticketBuckets)[tokenId := bucket]
      ensures history == old(history) + if granted then [Grant(clock, bucket.windowStartedAt, tokenId)] else []
    {
      RoomForOne(ticketBuckets, tokenId, bucket);
      if bucket.count > PER_TOKEN {
        if steady { RefusalKeepsLedger(history, clock, ticketBuckets, clock, tokenId); }
        ticketBuckets := ticketBuckets[tokenId := bucket];
        return false;
      }
      if steady { GrantKeepsLedger(history, clock, ticketBuckets, clock, tokenId, bucket); }
      ticketBuckets := ticketBuckets[tokenId := bucket];
      history := history + [Grant(clock, bucket.windowStartedAt, tokenId)];
      return true;
    }

    /** Charges one ticket to a token; a refused charge still counts against the current bucket. */
    method Consume(tokenId: string, now: int) returns (denied: Option<Denial>)
      requires Valid()
      modifies this
      ensures Valid() && clock == now && steady == old(steady && clock <= now)
      ensures denied == Some(CapacityExhausted) <==> old(Full(tokenId, now))
      ensures denied == Some(RateExceeded) <==> old(UsedUp(tokenId, now))
      ensures history == old(history) +
        if denied.None? then [Grant(now, Charged(old(ticketBuckets), now, tokenId).windowStartedAt, tokenId)] else []
      ensures ticketBuckets == AfterCharge(old(ticketBuckets), now, tokenId, denied == Some(CapacityExhausted))
    {
      var bucket := Charged(ticketBuckets, now, tokenId);
      Prune(tokenId, now);
      assert bucket == Charged(ticketBuckets, now, tokenId);
      if tokenId !in ticketBuckets && |ticketBuckets| >= CAPACITY {
        return Some(CapacityExhausted);
      }
      var granted := Charge(tokenId, bucket);
      return if granted then None else Some(RateExceeded);
    }

    /** With a clock that never steps back, no ten seconds see more than twice the budget of a token. */
    lemma {:induction false} SlidingBound(tokenId: string, from: int)
      requires Valid() && steady
      ensures Between(history, Some(tokenId), from, WINDOW) <= 2 * PER_TOKEN
    {
      AtMostTwice(history, Some(tokenId), WINDOW, PER_TOKEN, from);
    }
  }
}
