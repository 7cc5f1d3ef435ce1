/** One window that counts requests in total and per key. */
module KeyedWindow {
  import opened Wrappers
  import opened SlidingWindow

  ghost function SumOf(counts: map<string, nat>): nat
    decreases |counts|
  {
    if counts == map[] then 0
    else
      var k :| k in counts;
      counts[k] + SumOf(counts - {k})
  }

  /** The sum does not depend on the order in which keys are taken. */
  lemma {:induction false} SumWithout(counts: map<string, nat>, k: string)
    requires k in counts
    ensures SumOf(counts) == counts[k] + SumOf(counts - {k})
    decreases |counts|
  {
    var j :| j in counts && SumOf(counts) == counts[j] + SumOf(counts - {j});
    if j != k {
      SumWithout(counts - {j}, k);
      SumWithout(counts - {k}, j);
      assert counts - {j} - {k} == counts - {k} - {j};
    }
  }

  function CountOf(counts: map<string, nat>, k: string): nat {
    if k in counts then counts[k] else 0
  }

  lemma {:induction false} SumBumped(counts: map<string, nat>, k: string)
    ensures SumOf(counts[k := CountOf(counts, k) + 1]) == SumOf(counts) + 1
  {
    var bumped := counts[k := CountOf(counts, k) + 1];
    SumWithout(bumped, k);
    assert bumped - {k} == counts - {k};
    if k in counts { SumWithout(counts, k); } else { assert counts - {k} == counts; }
  }

  /** The history of grants agrees with the counters of the current window. */
  ghost predicate Ledger(
    h: seq<Grant<string>>, length: nat, clock: int, start: int, total: nat, counts: map<string, nat>,
    limit: nat, keyLimit: nat)
  {
    && start <= clock
    && Windowed(h, None, length)
    && (forall i | 0 <= i < |h| :: h[i].at <= clock && (h[i].start == start || h[i].start + length <= start))
    && (forall s :: InWindow(h, None, s) <= limit)
    && (forall d, s :: InWindow(h, Some(d), s) <= keyLimit)
    && InWindow(h, None, start) == total
    && (forall d :: InWindow(h, Some(d), start) == CountOf(counts, d))
  }

  lemma {:induction false} NewWindow(
    h: seq<Grant<string>>, length: nat, clock: int, start: int, total: nat, counts: map<string, nat>,
    limit: nat, keyLimit: nat, now: int)
    requires Ledger(h, length, clock, start, total, counts, limit, keyLimit)
    requires 0 < length && clock <= now && now - start >= length
    ensures Ledger(h, length, now, now, 0, map[], limit, keyLimit)
  {
    forall i | 0 <= i < |h| ensures h[i].start + length <= now { }
    EmptyWindow(h, None, now);
    forall d: string ensures InWindow(h, Some(d), now) == 0 { EmptyWindow(h, Some(d), now); }
  }

  lemma {:induction false} OneMoreGrant(
    h: seq<Grant<string>>, length: nat, clock: int, start: int, total: nat, counts: map<string, nat>,
    limit: nat, keyLimit: nat, now: int, key: string)
    requires Ledger(h, length, clock, start, total, counts, limit, keyLimit)
    requires clock <= now < start + length
    requires total < limit && CountOf(counts, key) < keyLimit
    ensures Ledger(h + [Grant(now, start, key)], length, now, start, total + 1,
                   counts[key := CountOf(counts, key) + 1], limit, keyLimit)
  {
    var g := Grant(now, start, key);
    forall s: int ensures InWindow(h + [g], None, s) <= limit { CountOneMore(h, g, None, s); }
    forall d: string, s: int ensures InWindow(h + [g], Some(d), s) <= keyLimit { CountOneMore(h, g, Some(d), s); }
    CountOneMore(h, g, None, start);
    forall d: string
      ensures InWindow(h + [g], Some(d), start) == CountOf(counts[key := CountOf(counts, key) + 1], d)
    {
      CountOneMore(h, g, Some(d), start);
    }
  }
}
