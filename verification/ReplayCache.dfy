/** Caches of used nonces that forget an entry once its expiry has passed, for clocks that may go either way. */
module ReplayCache {
  /**
   * What happened to a cache. An entry is remembered after its age was read at `at` and its nonce looked up when the
   * first `checked` things had happened; pruning forgets what expired by its reading.
   */
  datatype Happening =
    | Remembered(nonce: string, expiresAt: int, at: int, checked: nat)
    | Pruned(reading: int)

  function Live(tracked: map<string, int>, now: int): map<string, int> {
    map n | n in tracked && tracked[n] > now :: tracked[n]
  }

  /** The entries a cache holds after its log. */
  function Tracked(log: seq<Happening>): map<string, int> {
    if log == [] then map[]
    else
      var before := Tracked(log[..|log| - 1]);
      match log[|log| - 1]
      case Remembered(n, e, _, _) => before[n := e]
      case Pruned(now) => Live(before, now)
  }

  lemma {:induction false} OneMore(log: seq<Happening>, h: Happening)
    ensures Tracked(log + [h]) ==
      match h
      case Remembered(n, e, _, _) => Tracked(log)[n := e]
      case Pruned(now) => Live(Tracked(log), now)
  {
    assert (log + [h])[..|log|] == log;
  }

  ghost predicate Remembers(log: seq<Happening>, i: nat, nonce: string) {
    i < |log| && log[i].Remembered? && log[i].nonce == nonce
  }

  /** The latest time a nonce was remembered. */
  ghost predicate Latest(log: seq<Happening>, i: nat, nonce: string) {
    Remembers(log, i, nonce) && forall k | i < k < |log| :: !Remembers(log, k, nonce)
  }

  /** A prune since then read at least the expiry. */
  ghost predicate Forgotten(log: seq<Happening>, i: nat)
    requires i < |log| && log[i].Remembered?
  {
    exists k | i < k < |log| :: log[k].Pruned? && log[k].reading >= log[i].expiresAt
  }

  /** A nonce is tracked exactly when it was remembered and not forgotten since, under its latest expiry. */
  lemma {:induction false} TrackedExactly(log: seq<Happening>, i: nat, nonce: string)
    requires Latest(log, i, nonce)
    ensures nonce in Tracked(log) <==> !Forgotten(log, i)
    ensures nonce in Tracked(log) ==> Tracked(log)[nonce] == log[i].expiresAt
    decreases |log|
  {
    var last := |log| - 1;
    if i < last {
      var front := log[..last];
      assert Latest(front, i, nonce) by {
        assert forall k | i < k < last :: Remembers(front, k, nonce) ==> Remembers(log, k, nonce);
      }
      TrackedExactly(front, i, nonce);
      assert !Remembers(log, last, nonce);
      ForgottenFront(log, i);
    }
  }

  lemma {:induction false} ForgottenFront(log: seq<Happening>, i: nat)
    requires i < |log| - 1 && log[i].Remembered?
    ensures var last := |log| - 1;
      Forgotten(log, i) <==> Forgotten(log[..last], i) || (log[last].Pruned? && log[last].reading >= log[i].expiresAt)
  {
    var front := log[..|log| - 1];
    if Forgotten(front, i) {
      var k :| i < k < |front| && front[k].Pruned? && front[k].reading >= front[i].expiresAt;
      assert log[k] == front[k];
    }
    if k :| i < k < |log| && log[k].Pruned? && log[k].reading >= log[i].expiresAt {
      assert k < |front| ==> front[k] == log[k];
    }
  }

  lemma {:induction false} NeverRemembered(log: seq<Happening>, nonce: string)
    requires forall i | 0 <= i < |log| :: !Remembers(log, i, nonce)
    ensures nonce !in Tracked(log)
    decreases |log|
  {
    if log != [] {
      var front := log[..|log| - 1];
      assert forall i | 0 <= i < |front| :: Remembers(front, i, nonce) ==> Remembers(log, i, nonce);
      NeverRemembered(front, nonce);
      assert !Remembers(log, |log| - 1, nonce);
    }
  }

  lemma {:induction false} LatestOf(log: seq<Happening>, i: nat, nonce: string) returns (j: nat)
    requires Remembers(log, i, nonce)
    ensures Latest(log, j, nonce) && i <= j
  {
    j := |log| - 1;
    while !Remembers(log, j, nonce)
      invariant i <= j < |log| && forall k | j < k < |log| :: !Remembers(log, k, nonce)
      decreases j
    {
      j := j - 1;
    }
  }

  /** Every entry was looked up and found missing before it was remembered, unexpired by its own reading. */
  ghost predicate Lawful(log: seq<Happening>) {
    forall j | 0 <= j < |log| && log[j].Remembered? ::
      && log[j].checked <= j && log[j].at < log[j].expiresAt
      && log[j].nonce !in Tracked(log[..log[j].checked])
      && forall k | log[j].checked <= k < j :: log[k].Pruned?
  }

  /** No prune before a look-up read a later time than the look-up's own. */
  ghost predicate Steady(log: seq<Happening>) {
    forall j, k | 0 <= j < |log| && log[j].Remembered? && 0 <= k < log[j].checked && k < |log| && log[k].Pruned? ::
      log[k].reading <= log[j].at
  }

  /** All entries with one nonce expire together. */
  ghost predicate OneExpiryPerNonce(log: seq<Happening>) {
    forall i, j | 0 <= i < |log| && 0 <= j < |log| && log[i].Remembered? && log[j].Remembered?
      && log[i].nonce == log[j].nonce ::
      log[i].expiresAt == log[j].expiresAt
  }

  /**
   * Between two uses of a nonce, and before the second was looked up, a prune read at least the expiry of an earlier
   * one.
   */
  lemma {:induction false} ReuseFollowsPruning(log: seq<Happening>, i: nat, j: nat) returns (m: nat, k: nat)
    requires Lawful(log) && i < j < |log| && log[i].Remembered? && Remembers(log, j, log[i].nonce)
    ensures i <= m < k < log[j].checked && Remembers(log, m, log[i].nonce)
    ensures log[k].Pruned? && log[k].reading >= log[m].expiresAt
  {
    var nonce, before := log[i].nonce, log[..log[j].checked];
    assert i < log[j].checked;
    assert Remembers(before, i, nonce);
    m := LatestOf(before, i, nonce);
    TrackedExactly(before, m, nonce);
    k :| m < k < |before| && before[k].Pruned? && before[k].reading >= before[m].expiresAt;
  }

  /** With a steady clock and one expiry per nonce, no nonce is remembered twice. */
  lemma {:induction false} NoReuse(log: seq<Happening>, i: nat, j: nat)
    requires Lawful(log) && Steady(log) && OneExpiryPerNonce(log)
    requires i < j < |log| && log[i].Remembered? && log[j].Remembered?
    ensures log[i].nonce != log[j].nonce
  {
    if log[i].nonce == log[j].nonce {
      var m, k := ReuseFollowsPruning(log, i, j);
    }
  }

  /** Pruning keeps a log lawful, and so does remembering a nonce that was looked up in time. */
  lemma {:induction false} PruneKeepsLawful(log: seq<Happening>, now: int)
    requires Lawful(log)
    ensures Lawful(log + [Pruned(now)])
  {
    var longer := log + [Pruned(now)];
    forall j | 0 <= j < |longer| && longer[j].Remembered?
      ensures longer[j].nonce !in Tracked(longer[..longer[j].checked])
    {
      assert longer[j] == log[j] && longer[..longer[j].checked] == log[..log[j].checked];
    }
  }

  lemma {:induction false} RememberKeepsLawful(log: seq<Happening>, h: Happening)
    requires Lawful(log) && h.Remembered? && h.checked <= |log| && h.at < h.expiresAt
    requires h.nonce !in Tracked(log[..h.checked]) && forall k | h.checked <= k < |log| :: log[k].Pruned?
    ensures Lawful(log + [h])
  {
    var longer := log + [h];
    forall j | 0 <= j < |longer| && longer[j].Remembered?
      ensures longer[j].checked <= j && longer[j].nonce !in Tracked(longer[..longer[j].checked])
    {
      if j < |log| {
        assert longer[j] == log[j] && longer[..longer[j].checked] == log[..log[j].checked];
      } else {
        assert longer[..h.checked] == log[..h.checked];
      }
    }
  }
}
