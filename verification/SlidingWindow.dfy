/** What fixed counting windows guarantee about any interval of time. */
module SlidingWindow {
  import opened Wrappers

  /** One accepted request: when, in the window started when, for which key, and how much it counts. */
  datatype Grant<+K> = Grant(at: int, start: int, key: K, weight: nat := 1)

  /** A key of None stands for every request. */
  predicate Matches<K(==)>(g: Grant<K>, key: Option<K>) {
    key.None? || g.key == key.value
  }

  function InWindow<K(==)>(h: seq<Grant<K>>, key: Option<K>, start: int): nat {
    if h == [] then 0
    else InWindow(h[..|h| - 1], key, start) +
         (if Matches(h[|h| - 1], key) && h[|h| - 1].start == start then h[|h| - 1].weight else 0)
  }

  function Between<K(==)>(h: seq<Grant<K>>, key: Option<K>, from: int, length: nat): nat {
    if h == [] then 0
    else Between(h[..|h| - 1], key, from, length) +
         (if Matches(h[|h| - 1], key) && from <= h[|h| - 1].at < from + length then h[|h| - 1].weight else 0)
  }

  /** Requests fall inside their windows, in time order, and windows do not overlap. */
  ghost predicate Windowed<K>(h: seq<Grant<K>>, key: Option<K>, length: nat) {
    && (forall i | 0 <= i < |h| && Matches(h[i], key) :: h[i].start <= h[i].at < h[i].start + length)
    && (forall i, j | 0 <= i < j < |h| && Matches(h[i], key) && Matches(h[j], key) ::
          h[i].at <= h[j].at && (h[i].start == h[j].start || h[i].start + length <= h[j].start))
  }

  lemma {:induction false} TwoWindowsCover<K>(h: seq<Grant<K>>, key: Option<K>, from: int, length: nat, a: int, b: int)
    requires forall i | 0 <= i < |h| && Matches(h[i], key) && from <= h[i].at < from + length ::
               h[i].start == a || h[i].start == b
    ensures Between(h, key, from, length) <= InWindow(h, key, a) + InWindow(h, key, b)
  {
    if h != [] {
      var front := h[..|h| - 1];
      assert forall i | 0 <= i < |front| :: front[i] == h[i];
      TwoWindowsCover(front, key, from, length, a, b);
    }
  }

  lemma {:induction false} NoneBetween<K>(h: seq<Grant<K>>, key: Option<K>, from: int, length: nat)
    requires forall i | 0 <= i < |h| && Matches(h[i], key) :: !(from <= h[i].at < from + length)
    ensures Between(h, key, from, length) == 0
  {
    if h != [] {
      var front := h[..|h| - 1];
      assert forall i | 0 <= i < |front| :: front[i] == h[i];
      NoneBetween(front, key, from, length);
    }
  }

  ghost predicate Hit<K>(h: seq<Grant<K>>, key: Option<K>, from: int, length: nat, i: int) {
    0 <= i < |h| && Matches(h[i], key) && from <= h[i].at < from + length
  }

  lemma {:induction false} FirstHit<K>(h: seq<Grant<K>>, key: Option<K>, from: int, length: nat, k: nat)
    returns (i: nat)
    requires Hit(h, key, from, length, k)
    ensures Hit(h, key, from, length, i) && forall j | 0 <= j < i :: !Hit(h, key, from, length, j)
  {
    i := 0;
    while !Hit(h, key, from, length, i)
      invariant i <= k && forall j | 0 <= j < i :: !Hit(h, key, from, length, j)
      decreases k - i
    {
      i := i + 1;
    }
  }

  lemma {:induction false} LastHit<K>(h: seq<Grant<K>>, key: Option<K>, from: int, length: nat, k: nat) returns (i: nat)
    requires Hit(h, key, from, length, k)
    ensures Hit(h, key, from, length, i) && forall j | i < j < |h| :: !Hit(h, key, from, length, j)
  {
    i := |h| - 1;
    while !Hit(h, key, from, length, i)
      invariant k <= i < |h| && forall j | i < j < |h| :: !Hit(h, key, from, length, j)
      decreases i
    {
      i := i - 1;
    }
  }

  /** Any half-open interval of one window length holds at most twice the limit of one window. */
  lemma {:induction false} AtMostTwice<K>(h: seq<Grant<K>>, key: Option<K>, length: nat, limit: nat, from: int)
    requires Windowed(h, key, length)
    requires forall start :: InWindow(h, key, start) <= limit
    ensures Between(h, key, from, length) <= 2 * limit
  {
    if k: nat :| Hit(h, key, from, length, k) {
      var first := FirstHit(h, key, from, length, k);
      var last := LastHit(h, key, from, length, k);
      var a, b := h[first].start, h[last].start;
      forall i | 0 <= i < |h| && Matches(h[i], key) && from <= h[i].at < from + length
        ensures h[i].start == a || h[i].start == b
      {
        assert Hit(h, key, from, length, i) && first <= i <= last;
      }
      TwoWindowsCover(h, key, from, length, a, b);
    } else {
      assert forall i | 0 <= i < |h| && Matches(h[i], key) && from <= h[i].at < from + length ::
        Hit(h, key, from, length, i);
      NoneBetween(h, key, from, length);
    }
  }

  /** Recording one more request counts it in its own window only. */
  lemma {:induction false} CountOneMore<K>(h: seq<Grant<K>>, g: Grant<K>, key: Option<K>, start: int)
    ensures InWindow(h + [g], key, start) ==
      InWindow(h, key, start) + (if Matches(g, key) && g.start == start then g.weight else 0)
  {
    assert (h + [g])[..|h|] == h;
  }

  lemma {:induction false} EmptyWindow<K>(h: seq<Grant<K>>, key: Option<K>, start: int)
    requires forall i | 0 <= i < |h| && Matches(h[i], key) :: h[i].start != start
    ensures InWindow(h, key, start) == 0
  {
    if h != [] {
      var front := h[..|h| - 1];
      assert forall i | 0 <= i < |front| :: front[i] == h[i];
      EmptyWindow(front, key, start);
    }
  }
}
