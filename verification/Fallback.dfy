/** Automatic fallback: a turn out of capacity is retried with the next provider of the conversation's route. */
module Fallback {
  import opened Wrappers
  import opened TurnLog

  // ----- the route -----

  function FirstIndex(route: seq<Provider>, p: Provider): Option<nat> {
    if route == [] then None
    else if route[0] == p then Some(0)
    else
      match FirstIndex(route[1..], p)
      case None => None
      case Some(i) => Some(i + 1)
  }

  function NextFallback(route: seq<Provider>, p: Provider): Option<Provider> {
    match FirstIndex(route, p)
    case None => None
    case Some(i) => if i + 1 < |route| then Some(route[i + 1]) else None
  }

  ghost predicate Distinct(route: seq<Provider>) {
    forall i, j | 0 <= i < j < |route| :: route[i] != route[j]
  }

  lemma {:induction false} FirstIndexIsFirst(route: seq<Provider>, p: Provider)
    ensures FirstIndex(route, p).None? <==> p !in route
    ensures FirstIndex(route, p).Some? ==>
      var i := FirstIndex(route, p).value;
      i < |route| && route[i] == p && p !in route[..i]
  {
    if route != [] && route[0] != p {
      FirstIndexIsFirst(route[1..], p);
      if FirstIndex(route, p).Some? {
        var i := FirstIndex(route, p).value;
        assert route[..i] == [route[0]] + route[1..][..i - 1];
      }
    }
  }

  lemma {:induction false} FirstIndexIs(route: seq<Provider>, p: Provider, i: nat)
    requires i < |route| && route[i] == p && p !in route[..i]
    ensures FirstIndex(route, p) == Some(i)
  {
    if i > 0 {
      assert route[0] == route[..i][0];
      assert route[..i] == [route[0]] + route[1..][..i - 1];
      FirstIndexIs(route[1..], p, i - 1);
    }
  }

  /** The fallback is whoever follows the first place of the provider in the route. */
  lemma {:induction false} FallbackIsNext(route: seq<Provider>, p: Provider, next: Provider)
    ensures NextFallback(route, p) == Some(next) <==>
      exists i | 0 <= i < |route| - 1 :: route[i] == p && p !in route[..i] && route[i + 1] == next
  {
    FirstIndexIsFirst(route, p);
    forall i | 0 <= i < |route| && route[i] == p && p !in route[..i] ensures FirstIndex(route, p) == Some(i) {
      FirstIndexIs(route, p, i);
    }
  }

  /** Every switch moves forward in the route. */
  ghost predicate Rises(route: seq<Provider>) {
    forall p | NextFallback(route, p).Some? ::
      FirstIndex(route, NextFallback(route, p).value).Some?
      && FirstIndex(route, p).value < FirstIndex(route, NextFallback(route, p).value).value
  }

  /** The earliest repetition, if there is one. */
  lemma {:induction false} EarliestRepetition(route: seq<Provider>, n: nat) returns (j: nat)
    requires n <= |route| && !Distinct(route[..n])
    ensures 0 < j < n && Distinct(route[..j]) && route[j] in route[..j]
  {
    var k := n - 1;
    assert route[..n] == route[..k] + [route[k]];
    if Distinct(route[..k]) {
      j := k;
    } else {
      j := EarliestRepetition(route, k);
    }
  }

  /** Switching always moves forward exactly when the route repeats no provider; otherwise it can go round for ever. */
  lemma {:induction false} RisesIffDistinct(route: seq<Provider>)
    ensures Rises(route) <==> Distinct(route)
  {
    if Distinct(route) {
      forall p | NextFallback(route, p).Some?
        ensures FirstIndex(route, NextFallback(route, p).value).Some?
        ensures FirstIndex(route, p).value < FirstIndex(route, NextFallback(route, p).value).value
      {
        FirstIndexIsFirst(route, p);
        FirstIndexIsFirst(route, NextFallback(route, p).value);
      }
    } else {
      assert route[..|route|] == route;
      var j := EarliestRepetition(route, |route|);
      var p := route[j - 1];
      FirstIndexIsFirst(route, p);
      FirstIndexIsFirst(route, route[j]);
      assert FirstIndex(route, p).value == j - 1 by {
        var i := FirstIndex(route, p).value;
        assert p in route[..j] by { assert route[..j][j - 1] == p; }
        assert i <= j - 1;
        assert route[..j][i] == route[..j][j - 1];
      }
      assert NextFallback(route, p) == Some(route[j]);
    }
  }

  // ----- the client -----

  /** Messages logged by all turns from `from` on. */
  function AllUserMessages(turns: seq<Logged>, from: nat): nat
    requires from <= |turns|
    decreases |turns| - from
  {
    if from == |turns| then 0 else UserMessages(turns[from].events) + AllUserMessages(turns, from + 1)
  }

  lemma {:induction false} MessagesOfOneMore(turns: seq<Logged>, t: Logged, from: nat)
    requires from <= |turns|
    ensures AllUserMessages(turns + [t], from) == AllUserMessages(turns, from) + UserMessages(t.events)
    decreases |turns| - from
  {
    if from < |turns| {
      MessagesOfOneMore(turns, t, from + 1);
    } else {
      assert AllUserMessages(turns + [t], from + 1) == 0;
    }
  }

  /** At most one turn more adds what that turn logged. */
  lemma {:induction false} MessagesAdded(before: seq<Logged>, after: seq<Logged>)
    requires before <= after && |after| <= |before| + 1
    ensures AllUserMessages(after, |before|) == if after == before then 0 else UserMessages(after[|before|].events)
  {
    if after != before {
      assert after == before + [after[|before|]];
      MessagesOfOneMore(before, after[|before|], |before|);
    }
  }

  /** What the world answers to one attempt of the client. */
  datatype Attempt = Attempt(
    id: string, hash: string, revision: string, first: Circumstances, second: Circumstances, refreshed: bool,
    offered: bool, switched: bool)

  /** The limits a coordinator puts on a turn. */
  datatype Limits = Limits(events: nat, bytes: nat)

  /** What one submission is answered; a policy that changed meanwhile is adopted once. */
  function AnswerOnce(b: Books, l: Limits, c: string, p: Provider, a: Attempt): Outcome {
    var r := Answer(b, c, Message(a.id, p, a.revision, a.hash), a.first, l.events, l.bytes);
    if r.PolicyConflict? then Answer(b, c, Message(a.id, p, r.revision, a.hash), a.second, l.events, l.bytes) else r
  }

  /** Whoever runs out of capacity was asked in a known conversation without an active turn. */
  lemma {:induction false} CapacityMeansAdmitted(b: Books, l: Limits, c: string, p: Provider, a: Attempt)
    requires AnswerOnce(b, l, c, p, a).CapacityExhausted?
    ensures c in b.activeProvider && b.activeProvider[c] == p && c !in b.activeTurns
  {
  }

  /** One submission; a policy that changed meanwhile is adopted once. */
  method SubmitOnce(co: ConversationCoordinator, c: string, p: Provider, a: Attempt) returns (r: Outcome)
    requires co.Valid() && (c, a.id) !in co.responses
    modifies co
    ensures co.Valid() && co.activeProvider == old(co.activeProvider) && old(co.turns) <= co.turns
    ensures co.activeTurns == old(co.activeTurns)
    ensures r == AnswerOnce(old(co.Now()), Limits(co.providerEventLimit, co.providerByteLimit), c, p, a)
    ensures |co.turns| <= |old(co.turns)| + 1
    ensures AllUserMessages(co.turns, |old(co.turns)|) <= 1
    ensures r.Success? ==> AllUserMessages(co.turns, |old(co.turns)|) == 1
    ensures r.CapacityExhausted? ==>
      r.provider == p && (r.retrySafe <==> AllUserMessages(co.turns, |old(co.turns)|) == 0)
    ensures !r.Success? ==> co.responses == old(co.responses)
    ensures r.Success? ==> co.responses.Keys == old(co.responses).Keys + {(c, a.id)}
  {
    ghost var before := co.turns;
    r := co.SubmitMessage(c, Message(a.id, p, a.revision, a.hash), a.first);
    if r.PolicyConflict? {
      assert co.turns == before;
      r := co.SubmitMessage(c, Message(a.id, p, r.revision, a.hash), a.second);
    }
    MessagesAdded(before, co.turns);
  }

  /** All attempts use message ids never used before. */
  predicate FreshIds(attempts: seq<Attempt>) {
    forall i, j | 0 <= i < j < |attempts| :: attempts[i].id != attempts[j].id
  }

  lemma {:induction false} MessagesSplit(turns: seq<Logged>, longer: seq<Logged>, from: nat)
    requires from <= |turns| && turns <= longer
    ensures AllUserMessages(longer, from) == AllUserMessages(turns, from) + AllUserMessages(longer, |turns|)
    decreases |turns| - from
  {
    if from < |turns| {
      MessagesSplit(turns, longer, from + 1);
    }
  }

  /** Whether the client finds its own message among the logged ones. */
  predicate ContainsMessage(turns: seq<Logged>, id: string) {
    exists i | 0 <= i < |turns| :: UserMessage(id) in turns[i].events
  }

  /** How far along the route a provider stands; those outside it count as its end. */
  function Place(route: seq<Provider>, p: Provider): nat {
    match FirstIndex(route, p)
    case None => |route|
    case Some(i) => i
  }

  /** Each provider tried is the fallback of the one before it, further along the route. */
  ghost predicate Chain(route: seq<Provider>, tried: seq<Provider>) {
    forall i | 1 <= i < |tried| ::
      NextFallback(route, tried[i - 1]) == Some(tried[i])
        && Place(route, tried[i - 1]) < Place(route, tried[i]) < |route|
  }

  lemma {:induction false} ChainGrows(route: seq<Provider>, tried: seq<Provider>, next: Provider)
    requires Distinct(route) && Chain(route, tried) && tried != []
    requires NextFallback(route, tried[|tried| - 1]) == Some(next)
    ensures Chain(route, tried + [next])
    ensures Place(route, tried[|tried| - 1]) < Place(route, next) < |route|
  {
    RisesIffDistinct(route);
    FirstIndexIsFirst(route, tried[|tried| - 1]);
    FirstIndexIsFirst(route, next);
    forall i | 1 <= i < |tried + [next]|
      ensures NextFallback(route, (tried + [next])[i - 1]) == Some((tried + [next])[i])
      ensures Place(route, (tried + [next])[i - 1]) < Place(route, (tried + [next])[i]) < |route|
    {
      assert i < |tried| ==> NextFallback(route, tried[i - 1]) == Some(tried[i]);
    }
  }

  /** No provider is tried twice, and there are no more attempts than places in the route, or one outside it. */
  lemma {:induction false} ChainNeverRepeats(route: seq<Provider>, tried: seq<Provider>)
    requires Chain(route, tried) && tried != []
    ensures forall i, j | 0 <= i < j < |tried| :: tried[i] != tried[j]
    ensures |tried| - 1 <= Place(route, tried[|tried| - 1]) && |tried| <= if route == [] then 1 else |route|
  {
    PlacesRise(route, tried, 0);
    forall i, j | 0 <= i < j < |tried| ensures tried[i] != tried[j] {
      PlacesRise(route, tried, i);
      assert Place(route, tried[i]) + (j - i) <= Place(route, tried[j]);
    }
  }

  lemma {:induction false} PlacesRise(route: seq<Provider>, tried: seq<Provider>, i: nat)
    requires Chain(route, tried) && i < |tried|
    ensures forall j | i <= j < |tried| :: Place(route, tried[i]) + (j - i) <= Place(route, tried[j])
    decreases |tried| - i
  {
    if i + 1 < |tried| {
      PlacesRise(route, tried, i + 1);
      assert Place(route, tried[i + 1 - 1]) < Place(route, tried[i + 1]);
    }
  }

  lemma {:induction false} SilentTurnsHide(turns: seq<Logged>, longer: seq<Logged>, id: string)
    requires turns <= longer && AllUserMessages(longer, |turns|) == 0
    ensures ContainsMessage(longer, id) <==> ContainsMessage(turns, id)
  {
    if ContainsMessage(turns, id) {
      var i :| 0 <= i < |turns| && UserMessage(id) in turns[i].events;
      assert longer[i] == turns[i];
    }
    if ContainsMessage(longer, id) {
      var i :| 0 <= i < |longer| && UserMessage(id) in longer[i].events;
      if i >= |turns| {
        SilentTurns(longer, |turns|, i);
        CountSome(longer[i].events, IsUserMessage);
      } else {
        assert longer[i] == turns[i];
      }
    }
  }

  lemma {:induction false} SilentTurns(turns: seq<Logged>, from: nat, i: nat)
    requires from <= i < |turns| && AllUserMessages(turns, from) == 0
    ensures UserMessages(turns[i].events) == 0
    decreases |turns| - from
  {
    if from < i { SilentTurns(turns, from + 1, i); }
  }

  /** What the coordinator knows when the i-th provider is tried. */
  function BooksAt(b: Books, c: string, tried: seq<Provider>, i: nat): Books
    requires i < |tried|
  {
    if i == 0 then b else b.(activeProvider := b.activeProvider[c := tried[i]])
  }

  /**
   * The next provider of the route is tried exactly when this one ran out of capacity before it took the message, the
   * client does not find its message in the log, and the next provider exists, is offered and can be switched to.
   */
  ghost predicate FallsBack(turns: seq<Logged>, route: seq<Provider>, p: Provider, a: Attempt, r: Outcome) {
    && r == CapacityExhausted(p, true) && !(a.refreshed && ContainsMessage(turns, a.id))
    && NextFallback(route, p).Some? && a.offered && a.switched
  }

  /** Each provider but the last was fallen back from, and each answered as the coordinator does. */
  ghost predicate Story(
    b: Books, l: Limits, turns: seq<Logged>, c: string, route: seq<Provider>, attempts: seq<Attempt>,
    tried: seq<Provider>, outcomes: seq<Outcome>)
  {
    && |outcomes| <= |tried| <= |attempts|
    && (forall i | 0 <= i < |outcomes| ::
          outcomes[i] == AnswerOnce(BooksAt(b, c, tried, i), l, c, tried[i], attempts[i]))
    && (forall i | 0 <= i < |tried| - 1 && i < |outcomes| ::
          FallsBack(turns, route, tried[i], attempts[i], outcomes[i]))
  }

  lemma {:induction false} StoryAnswered(
    b: Books, l: Limits, turns: seq<Logged>, c: string, route: seq<Provider>, attempts: seq<Attempt>,
    tried: seq<Provider>, outcomes: seq<Outcome>, r: Outcome)
    requires Story(b, l, turns, c, route, attempts, tried, outcomes) && |outcomes| == |tried| - 1
    requires r == AnswerOnce(BooksAt(b, c, tried, |outcomes|), l, c, tried[|outcomes|], attempts[|outcomes|])
    ensures Story(b, l, turns, c, route, attempts, tried, outcomes + [r])
  {
  }

  lemma {:induction false} StoryGoesOn(
    b: Books, l: Limits, turns: seq<Logged>, c: string, route: seq<Provider>, attempts: seq<Attempt>,
    tried: seq<Provider>, outcomes: seq<Outcome>, next: Provider)
    requires Story(b, l, turns, c, route, attempts, tried, outcomes) && |outcomes| == |tried| < |attempts|
    requires tried != [] && FallsBack(turns, route, tried[|tried| - 1], attempts[|tried| - 1], outcomes[|tried| - 1])
    ensures Story(b, l, turns, c, route, attempts, tried + [next], outcomes)
  {
    var longer := tried + [next];
    forall i | 0 <= i < |outcomes|
      ensures outcomes[i] == AnswerOnce(BooksAt(b, c, longer, i), l, c, longer[i], attempts[i])
      ensures FallsBack(turns, route, longer[i], attempts[i], outcomes[i])
    {
      assert longer[i] == tried[i] && BooksAt(b, c, longer, i) == BooksAt(b, c, tried, i);
      if i == |tried| - 1 {
        assert FallsBack(turns, route, tried[i], attempts[i], outcomes[i]);
      }
    }
  }

  lemma {:induction false} SwitchedAgain(b: Books, c: string, tried: seq<Provider>, next: Provider)
    requires tried != []
    ensures BooksAt(b, c, tried, |tried| - 1).activeProvider[c := next] == b.activeProvider[c := next]
  {
  }

  /** What is so after a provider ran out of capacity. */
  ghost predicate CanRetry(
    co: ConversationCoordinator, before: seq<Logged>, c: string, p: Provider, a: Attempt, r: Outcome)
    requires r.CapacityExhausted? && |before| <= |co.turns|
    reads co
  {
    && r.provider == p && c in co.activeProvider && c !in co.activeTurns
    && (r.retrySafe ==>
          && AllUserMessages(co.turns, |before|) == 0
          && (ContainsMessage(co.turns, a.id) <==> ContainsMessage(before, a.id)))
  }

  /** After an answer: switches to the next provider of the route if it is to be tried. */
  method SwitchOn(co: ConversationCoordinator, c: string, route: seq<Provider>, p: Provider, a: Attempt, r: Outcome,
    ghost turns: seq<Logged>) returns (next: Option<Provider>)
    requires co.Valid() && |turns| <= |co.turns| && (r.CapacityExhausted? ==> CanRetry(co, turns, c, p, a, r))
    modifies co`activeProvider
    ensures co.Valid() && (next.Some? <==> FallsBack(turns, route, p, a, r))
    ensures next.Some? ==> next == NextFallback(route, p)
    ensures co.activeProvider == if next.Some? then old(co.activeProvider)[c := next.value] else old(co.activeProvider)
  {
    next := None;
    if r.CapacityExhausted? && r.retrySafe && !(a.refreshed && ContainsMessage(co.turns, a.id)) {
      next := NextFallback(route, r.provider);
      if next.None? || !a.offered { return None; }
      var switched := co.SwitchProvider(c, next.value, a.switched);
      if !switched { return None; }
    }
  }

  /** So far no message was logged; the last provider tried is active, but for the first, and has not answered yet. */
  ghost predicate Sending(
    co: ConversationCoordinator, before: seq<Logged>, b: Books, c: string, route: seq<Provider>,
    attempts: seq<Attempt>, tried: seq<Provider>, outcomes: seq<Outcome>)
    reads co
  {
    && co.Valid() && before <= co.turns && AllUserMessages(co.turns, |before|) == 0
    && co.responses == b.responses && Chain(route, tried) && |outcomes| == |tried| - 1
    && co.Now() == BooksAt(b, c, tried, |outcomes|)
    && Story(b, Limits(co.providerEventLimit, co.providerByteLimit), before, c, route, attempts, tried, outcomes)
  }

  lemma {:induction false} SendingGoesOn(
    co: ConversationCoordinator, before: seq<Logged>, b: Books, c: string, route: seq<Provider>,
    attempts: seq<Attempt>, tried: seq<Provider>, outcomes: seq<Outcome>, next: Provider)
    requires co.Valid() && before <= co.turns && AllUserMessages(co.turns, |before|) == 0
    requires Distinct(route) && Chain(route, tried) && 0 < |outcomes| == |tried| && |attempts| >= |route|
    requires Story(b, Limits(co.providerEventLimit, co.providerByteLimit), before, c, route, attempts, tried, outcomes)
    requires NextFallback(route, tried[|tried| - 1]) == Some(next)
    requires FallsBack(before, route, tried[|tried| - 1], attempts[|tried| - 1], outcomes[|tried| - 1])
    requires co.responses == b.responses
    requires co.Now() == b.(activeProvider := BooksAt(b, c, tried, |tried| - 1).activeProvider[c := next])
    ensures |tried| < |attempts| && Place(route, tried[|tried| - 1]) < Place(route, next) < |route|
    ensures Sending(co, before, b, c, route, attempts, tried + [next], outcomes)
  {
    ChainGrows(route, tried, next);
    ChainNeverRepeats(route, tried + [next]);
    SwitchedAgain(b, c, tried, next);
    StoryGoesOn(b, Limits(co.providerEventLimit, co.providerByteLimit), before, c, route, attempts, tried, outcomes,
      next);
  }

  /** Submits to the last provider of the chain. */
  method Try(
    co: ConversationCoordinator, c: string, route: seq<Provider>, p: Provider, a: Attempt, ghost before: seq<Logged>,
    ghost b: Books, ghost attempts: seq<Attempt>, ghost tried: seq<Provider>, ghost outcomes: seq<Outcome>)
    returns (r: Outcome)
    requires Sending(co, before, b, c, route, attempts, tried, outcomes)
    requires p == tried[|tried| - 1] && a == attempts[|tried| - 1] && (c, a.id) !in b.responses
    modifies co
    ensures co.Valid() && before <= co.turns && co.activeProvider == old(co.activeProvider)
    ensures co.activeTurns == old(co.activeTurns) && (!r.Success? ==> co.responses == b.responses)
    ensures AllUserMessages(co.turns, |before|) <= 1
    ensures r.Success? ==> AllUserMessages(co.turns, |before|) == 1
    ensures r.CapacityExhausted? ==> CanRetry(co, before, c, p, a, r)
    ensures Story(b, Limits(co.providerEventLimit, co.providerByteLimit), before, c, route, attempts, tried,
      outcomes + [r])
  {
    ghost var earlier, l := co.turns, Limits(co.providerEventLimit, co.providerByteLimit);
    r := SubmitOnce(co, c, p, a);
    MessagesSplit(earlier, co.turns, |before|);
    StoryAnswered(b, l, before, c, route, attempts, tried, outcomes, r);
    if r.CapacityExhausted? {
      CapacityMeansAdmitted(BooksAt(b, c, tried, |tried| - 1), l, c, p, a);
      if r.retrySafe { SilentTurnsHide(before, co.turns, a.id); }
    }
  }

  /**
   * Sends one text, switching along the route for as long as providers run out of capacity before they take it.
   * `attempts` holds the world's answers to each attempt; each has a message id of its own. Each provider tried
   * answers as the coordinator does, and the next one is tried exactly when it is to be.
   */
  method Send(co: ConversationCoordinator, c: string, route: seq<Provider>, first: Provider, attempts: seq<Attempt>)
    returns (r: Outcome, tried: seq<Provider>, ghost outcomes: seq<Outcome>)
    requires co.Valid() && Distinct(route) && FreshIds(attempts) && |attempts| >= |route| && |attempts| >= 1
    requires forall i | 0 <= i < |attempts| :: (c, attempts[i].id) !in co.responses
    modifies co
    ensures co.Valid() && old(co.turns) <= co.turns
    ensures AllUserMessages(co.turns, |old(co.turns)|) <= 1
    ensures r.Success? ==> AllUserMessages(co.turns, |old(co.turns)|) == 1
    ensures tried != [] && tried[0] == first && Chain(route, tried)
    ensures |outcomes| == |tried| && r == outcomes[|tried| - 1]
    ensures Story(old(co.Now()), Limits(co.providerEventLimit, co.providerByteLimit), old(co.turns), c, route, attempts,
      tried, outcomes)
    ensures !FallsBack(old(co.turns), route, tried[|tried| - 1], attempts[|tried| - 1], r)
  {
    var p := first;
    tried := [first];
    outcomes := [];
    ghost var before, books := co.turns, co.Now();
    assert Sending(co, before, books, c, route, attempts, tried, outcomes);
    hide Story, AnswerOnce, AllUserMessages;
    while true
      invariant tried != [] && tried[0] == first && tried[|tried| - 1] == p && |tried| <= |attempts|
      invariant Sending(co, before, books, c, route, attempts, tried, outcomes)
      decreases |route| - Place(route, p)
    {
      var a := attempts[|tried| - 1];
      r := Try(co, c, route, p, a, before, books, attempts, tried, outcomes);
      outcomes := outcomes + [r];
      var next := SwitchOn(co, c, route, p, a, r, before);
      if next.None? { return; }
      SendingGoesOn(co, before, books, c, route, attempts, tried, outcomes, next.value);
      p := next.value;
      tried := tried + [p];
    }
  }
}
