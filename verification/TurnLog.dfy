/** One turn of a conversation: what it logs, in which order, and when its failure may be retried. */
module TurnLog {
  // Events of a turn are listed apart from those of other turns.

  import opened Wrappers

  type Provider = string

  datatype Kind =
    | Checkpointed | PolicyObserved | TurnStarted | UserMessage(clientMessageId: string)
    | SessionBound | ApprovalRequested | Activity(name: string) | RedactionApplied
    | TurnCompleted | TurnFailed(retrySafe: Option<bool>)

  /** What an adapter streams; `valid` tells whether an approval request has all its fields. */
  datatype ProviderEvent =
    | Bound(bytes: nat, redacted: bool)
    | Approval(bytes: nat, redacted: bool, valid: bool)
    | Other(bytes: nat, redacted: bool, name: string)

  /** An adapter that runs out of capacity reports its own name. */
  datatype Ending = Finished | OutOfCapacity | Broken

  datatype Stream = Stream(events: seq<ProviderEvent>, ending: Ending)

  datatype Message = Message(clientMessageId: string, provider: Provider, policyRevision: string, hash: string)

  datatype Outcome =
    | Success(events: seq<Kind>)
    | HandoffRequired | ProviderUnavailable | PolicyConflict(revision: string) | AlreadyActive | KeyReused
    | CapacityExhausted(provider: Provider, retrySafe: bool) | WorkspaceUnavailable | Failed

  // ----- what a turn's events look like -----

  predicate IsUserMessage(k: Kind) { k.UserMessage? }

  predicate FromProvider(k: Kind) { k.SessionBound? || k.ApprovalRequested? || k.Activity? }

  function Count(ks: seq<Kind>, p: Kind -> bool): nat {
    if ks == [] then 0 else Count(ks[..|ks| - 1], p) + (if p(ks[|ks| - 1]) then 1 else 0)
  }

  function UserMessages(ks: seq<Kind>): nat { Count(ks, IsUserMessage) }

  function ProviderEvents(ks: seq<Kind>): nat { Count(ks, FromProvider) }

  lemma {:induction false} CountOneMore(ks: seq<Kind>, k: Kind, p: Kind -> bool)
    ensures Count(ks + [k], p) == Count(ks, p) + (if p(k) then 1 else 0)
  {
    assert (ks + [k])[..|ks|] == ks;
  }

  lemma {:induction false} CountSome(ks: seq<Kind>, p: Kind -> bool)
    ensures Count(ks, p) > 0 <==> exists i | 0 <= i < |ks| :: p(ks[i])
  {
    if ks != [] {
      var front := ks[..|ks| - 1];
      CountSome(front, p);
      assert forall i | 0 <= i < |front| :: front[i] == ks[i];
    }
  }

  /** Provider activity other than binding a session comes after the user's message. */
  ghost predicate MessageFirst(ks: seq<Kind>) {
    forall i | 0 <= i < |ks| && FromProvider(ks[i]) && !ks[i].SessionBound? ::
      exists j | 0 <= j < i :: ks[j].UserMessage?
  }

  ghost predicate Orderly(ks: seq<Kind>, m: Message) {
    && UserMessages(ks) <= 1 && MessageFirst(ks)
    && forall i | 0 <= i < |ks| && ks[i].UserMessage? :: ks[i].clientMessageId == m.clientMessageId
  }

  lemma {:induction false} OrderlyGrows(ks: seq<Kind>, m: Message, k: Kind)
    requires Orderly(ks, m)
    requires k.UserMessage? ==> UserMessages(ks) == 0 && k.clientMessageId == m.clientMessageId
    requires FromProvider(k) && !k.SessionBound? ==> UserMessages(ks) == 1
    ensures Orderly(ks + [k], m)
  {
    var longer := ks + [k];
    CountOneMore(ks, k, IsUserMessage);
    CountSome(ks, IsUserMessage);
    forall i | 0 <= i < |longer| && FromProvider(longer[i]) && !longer[i].SessionBound?
      ensures exists j | 0 <= j < i :: longer[j].UserMessage?
    {
      if i < |ks| {
        var j :| 0 <= j < i && ks[j].UserMessage?;
        assert longer[j].UserMessage?;
      } else {
        var j :| 0 <= j < |ks| && ks[j].UserMessage?;
        assert longer[j].UserMessage?;
      }
    }
  }

  lemma {:induction false} EventGrows(ks: seq<Kind>, m: Message, k: Kind)
    requires Orderly(ks, m) && FromProvider(k) && (!k.SessionBound? ==> UserMessages(ks) == 1)
    ensures Orderly(ks + [k], m) && UserMessages(ks + [k]) == UserMessages(ks)
    ensures ProviderEvents(ks + [k]) == ProviderEvents(ks) + 1
  {
    OrderlyGrows(ks, m, k);
    CountOneMore(ks, k, IsUserMessage);
    CountOneMore(ks, k, FromProvider);
  }

  // ----- what a turn writes -----

  /** One write to the store, with the event it logs, if any. */
  type Write = Option<Kind>

  /** The log that a trace of writes leaves, of which the n-th works or not. */
  function LogOf(works: nat -> bool, trace: seq<Write>): seq<Kind> {
    if trace == [] then []
    else
      var last := |trace| - 1;
      LogOf(works, trace[..last]) + if works(last) && trace[last].Some? then [trace[last].value] else []
  }

  lemma {:induction false} LogOfOneMore(works: nat -> bool, trace: seq<Write>, w: Write)
    ensures LogOf(works, trace + [w]) ==
      LogOf(works, trace) + if works(|trace|) && w.Some? then [w.value] else []
  {
    assert (trace + [w])[..|trace|] == trace;
  }

  /** From one point to the other the turn tried all of these writes and all worked, or up to the first that did not. */
  ghost predicate Did(works: nat -> bool, from: seq<Write>, to: seq<Write>, plan: seq<Write>, ok: bool) {
    if ok then to == from + plan && forall k | |from| <= k < |to| :: works(k)
    else
      && |from| < |to| && to <= from + plan && from <= to
      && !works(|to| - 1) && forall k | |from| <= k < |to| - 1 :: works(k)
  }

  lemma {:induction false} DidNothing(works: nat -> bool, trace: seq<Write>)
    ensures Did(works, trace, trace, [], true)
  {
    assert trace + [] == trace;
  }

  lemma {:induction false} DidOne(works: nat -> bool, trace: seq<Write>, w: Write)
    ensures Did(works, trace, trace + [w], [w], works(|trace|))
  {
  }

  /** One part worked, and then the other was tried. */
  lemma {:induction false} DidBoth(
    works: nat -> bool, from: seq<Write>, middle: seq<Write>, to: seq<Write>, a: seq<Write>, b: seq<Write>, ok: bool)
    requires Did(works, from, middle, a, true) && Did(works, middle, to, b, ok)
    ensures Did(works, from, to, a + b, ok)
  {
    assert from + a + b == from + (a + b);
  }

  /** One part failed, so the other was not tried. */
  lemma {:induction false} DidFail(
    works: nat -> bool, from: seq<Write>, to: seq<Write>, a: seq<Write>, b: seq<Write>)
    requires Did(works, from, to, a, false)
    ensures Did(works, from, to, a + b, false)
  {
    assert from + (a + b) == from + a + b;
  }

  /** What these writes log if they all work. */
  function Kinds(plan: seq<Write>): seq<Kind> {
    if plan == [] then []
    else
      var last := |plan| - 1;
      Kinds(plan[..last]) + if plan[last].Some? then [plan[last].value] else []
  }

  lemma {:induction false} Associative(a: seq<Kind>, b: seq<Kind>, c: seq<Kind>)
    ensures a + b + c == a + (b + c)
  {
  }

  lemma {:induction false} KindsConcat(a: seq<Write>, b: seq<Write>)
    ensures Kinds(a + b) == Kinds(a) + Kinds(b)
  {
    if b == [] {
      assert a + b == a;
    } else {
      var last := |b| - 1;
      assert (a + b)[..|a| + last] == a + b[..last] && (a + b)[|a| + last] == b[last];
      KindsConcat(a, b[..last]);
      Associative(Kinds(a), Kinds(b[..last]), if b[last].Some? then [b[last].value] else []);
    }
  }

  /** Writes that all work log what they are for. */
  lemma {:induction false} WorkingLogs(works: nat -> bool, trace: seq<Write>, plan: seq<Write>)
    requires forall k | |trace| <= k < |trace| + |plan| :: works(k)
    ensures LogOf(works, trace + plan) == LogOf(works, trace) + Kinds(plan)
  {
    if plan == [] {
      assert trace + plan == trace;
    } else {
      var last := |plan| - 1;
      WorkingLogs(works, trace, plan[..last]);
      assert trace + plan == trace + plan[..last] + [plan[last]];
      LogOfOneMore(works, trace + plan[..last], plan[last]);
      Associative(LogOf(works, trace), Kinds(plan[..last]), if plan[last].Some? then [plan[last].value] else []);
    }
  }

  /** When all work, all is logged; in any case what is logged is what comes first of that. */
  lemma {:induction false} DidLogs(works: nat -> bool, from: seq<Write>, to: seq<Write>, plan: seq<Write>, ok: bool)
    requires Did(works, from, to, plan, ok)
    ensures var all := LogOf(works, from) + Kinds(plan);
      LogOf(works, from) <= LogOf(works, to) <= all && (ok ==> LogOf(works, to) == all)
  {
    var n := |to| - |from|;
    if ok {
      WorkingLogs(works, from, plan);
    } else {
      assert to == from + plan[..n - 1] + [plan[n - 1]];
      WorkingLogs(works, from, plan[..n - 1]);
      LogOfOneMore(works, from + plan[..n - 1], plan[n - 1]);
      KindsConcat(plan[..n - 1], plan[n - 1..]);
      assert plan == plan[..n - 1] + plan[n - 1..];
      Associative(LogOf(works, from), Kinds(plan[..n - 1]), Kinds(plan[n - 1..]));
    }
  }

  function KindOf(e: ProviderEvent): Kind {
    match e
    case Bound(_, _) => SessionBound
    case Approval(_, _, _) => ApprovalRequested
    case Other(_, _, name) => Activity(name)
  }

  const ENTERED: seq<Write> := [None] + [Some(Checkpointed)]
  const STARTED: seq<Write> := [Some(PolicyObserved)] + [Some(TurnStarted)]
  const COMPLETED: seq<Write> := [Some(Checkpointed)] + ([Some(TurnCompleted)] + [None])

  /** Everything up to the end of the stream; the turn itself is entered first. */
  function OpeningWrites(
    m: Message, contextCreated: bool, es: seq<ProviderEvent>, events: nat, bytes: nat): seq<Write>
  {
    ENTERED + if contextCreated then STARTED + StreamWrites(PlanFor(m), false, es, events, bytes) else []
  }

  /** After the stream; the last write stores the answer. */
  function ClosingWrites(said: bool, m: Message, finalized: bool): seq<Write> {
    DueWrites(said, m) + if finalized then COMPLETED else []
  }

  /** Of a turn that failed; the last write ends the turn. */
  function FailureWrites(retrySafe: Option<bool>, redacted: bool): seq<Write> {
    [Some(TurnFailed(retrySafe))] + ((if redacted then [Some(RedactionApplied)] else []) + [None])
  }

  predicate Acceptable(e: ProviderEvent) { e.Approval? ==> e.valid }

  /**
   * The writes for one event: the user's message if it is due, and the event with its redaction. A binding is stored
   * after its event, an approval before; an approval that lacks fields is not logged.
   */
  function EventWrites(said: bool, m: Message, e: ProviderEvent): seq<Write> {
    (if e.Bound? then [] else DueWrites(said, m)) + (if Acceptable(e) then OwnWrites(e) else [])
  }

  function DueWrites(said: bool, m: Message): seq<Write> {
    if said then [] else [Some(UserMessage(m.clientMessageId))]
  }

  function OwnWrites(e: ProviderEvent): seq<Write> {
    if e.Approval? then [None] + ([Some(KindOf(e))] + RestWrites(e)) else [Some(KindOf(e))] + RestWrites(e)
  }

  function RestWrites(e: ProviderEvent): seq<Write> {
    (if e.Bound? then [None] else []) + (if e.redacted then [Some(RedactionApplied)] else [])
  }

  /** What one event adds to the log: the user's message if it is due, the event by its kind, and its redaction. */
  function EventLog(said: bool, m: Message, e: ProviderEvent): seq<Kind> {
    (if said || e.Bound? then [] else [UserMessage(m.clientMessageId)]) +
    match e
    case Bound(_, redacted) => [SessionBound] + Redacted(redacted)
    case Approval(_, redacted, valid) => if valid then [ApprovalRequested] + Redacted(redacted) else []
    case Other(_, redacted, name) => [Activity(name)] + Redacted(redacted)
  }

  function Redacted(redacted: bool): seq<Kind> { if redacted then [RedactionApplied] else [] }

  lemma {:induction false} KindsOne(w: Write)
    ensures Kinds([w]) == if w.Some? then [w.value] else []
  {
    assert [w][1..] == [];
  }

  lemma {:induction false} OwnLog(e: ProviderEvent)
    ensures Kinds(OwnWrites(e)) == [KindOf(e)] + Redacted(e.redacted)
  {
    var bound: seq<Write> := if e.Bound? then [None] else [];
    var redaction: seq<Write> := if e.redacted then [Some(RedactionApplied)] else [];
    KindsOne(None);
    KindsOne(Some(KindOf(e)));
    KindsOne(Some(RedactionApplied));
    KindsConcat(bound, redaction);
    KindsConcat([Some(KindOf(e))], RestWrites(e));
    KindsConcat([None], [Some(KindOf(e))] + RestWrites(e));
  }

  lemma {:induction false} EventLogs(said: bool, m: Message, e: ProviderEvent)
    ensures Kinds(EventWrites(said, m, e)) == EventLog(said, m, e)
  {
    OwnLog(e);
    KindsOne(Some(UserMessage(m.clientMessageId)));
    KindsConcat(if e.Bound? then [] else DueWrites(said, m), if Acceptable(e) then OwnWrites(e) else []);
  }

  /** Whether the user's message has been logged before the n-th event. */
  function SaidBefore(said: bool, es: seq<ProviderEvent>, n: nat): bool
    requires n <= |es|
  {
    if n == 0 then said else SaidBefore(said, es, n - 1) || !es[n - 1].Bound?
  }

  function Bytes(es: seq<ProviderEvent>, n: nat): nat
    requires n <= |es|
  {
    if n == 0 then 0 else Bytes(es, n - 1) + es[n - 1].bytes
  }

  /** What each event writes, by whether the user's message was logged before. */
  type EventPlan = (bool, ProviderEvent) -> seq<Write>

  function PlanFor(m: Message): EventPlan { (said, e) => EventWrites(said, m, e) }

  /** The writes of the first `n` events. */
  function FirstWrites(own: EventPlan, said: bool, es: seq<ProviderEvent>, n: nat): seq<Write>
    requires n <= |es|
  {
    if n == 0 then [] else FirstWrites(own, said, es, n - 1) + own(SaidBefore(said, es, n - 1), es[n - 1])
  }

  predicate Active(es: seq<ProviderEvent>) { SaidBefore(false, es, |es|) }

  predicate WithinLimits(es: seq<ProviderEvent>, n: nat, events: nat, bytes: nat)
    requires n <= |es|
  {
    n <= events && Bytes(es, n) <= bytes
  }

  /** How many events come through from the n-th on: the first over a limit or lacking fields does not. */
  function Come(es: seq<ProviderEvent>, n: nat, events: nat, bytes: nat): (k: nat)
    requires n <= |es|
    ensures n <= k <= |es|
    decreases |es| - n
  {
    if n == |es| || !WithinLimits(es, n + 1, events, bytes) || !Acceptable(es[n]) then n
    else Come(es, n + 1, events, bytes)
  }

  /** The whole stream stays within both limits and lacks nothing. */
  predicate Through(es: seq<ProviderEvent>, events: nat, bytes: nat) { Come(es, 0, events, bytes) == |es| }

  /** The writes of a stream: an event that lacks fields still brings the user's message. */
  function StreamWrites(own: EventPlan, said: bool, es: seq<ProviderEvent>, events: nat, bytes: nat): seq<Write> {
    var n := Come(es, 0, events, bytes);
    if n < |es| && WithinLimits(es, n + 1, events, bytes) then FirstWrites(own, said, es, n + 1)
    else FirstWrites(own, said, es, n)
  }

  lemma {:induction false} FirstWritesGrow(own: EventPlan, said: bool, es: seq<ProviderEvent>, n: nat, k: nat)
    requires n <= k <= |es|
    ensures FirstWrites(own, said, es, n) <= FirstWrites(own, said, es, k)
  {
    if n < k { FirstWritesGrow(own, said, es, n, k - 1); }
  }

  /** An event within the limits is written, whatever comes after it. */
  lemma {:induction false} StreamGoesOn(
    own: EventPlan, said: bool, es: seq<ProviderEvent>, n: nat, events: nat, bytes: nat)
    requires n < |es| && n <= Come(es, 0, events, bytes) && WithinLimits(es, n + 1, events, bytes)
    ensures FirstWrites(own, said, es, n + 1) <= StreamWrites(own, said, es, events, bytes)
  {
    hide Come, FirstWrites;
    var k := Come(es, 0, events, bytes);
    if k > n { FirstWritesGrow(own, said, es, n + 1, k); }
    if k < |es| { FirstWritesGrow(own, said, es, k, k + 1); }
  }

  lemma {:induction false} DidLonger(
    works: nat -> bool, from: seq<Write>, to: seq<Write>, plan: seq<Write>, longer: seq<Write>, ok: bool)
    requires Did(works, from, to, plan, ok) && plan <= longer && (ok ==> plan == longer)
    ensures Did(works, from, to, longer, ok)
  {
    if !ok { assert from + plan <= from + longer; }
  }

  /** Whoever has come to the n-th event comes past it exactly if it is within the limits and lacks nothing. */
  lemma {:induction false} ComeNext(es: seq<ProviderEvent>, from: nat, n: nat, events: nat, bytes: nat)
    requires from <= n < |es| && n <= Come(es, from, events, bytes)
    ensures n < Come(es, from, events, bytes) <==> WithinLimits(es, n + 1, events, bytes) && Acceptable(es[n])
    decreases n - from
  {
    if from < n { ComeNext(es, from + 1, n, events, bytes); }
  }

  /** After the writes of an event within the limits: the next one follows, or that was all of the stream. */
  lemma {:induction false} OneEventDone(
    works: nat -> bool, own: EventPlan, start: seq<Write>, here: seq<Write>, now: seq<Write>, said: bool,
    es: seq<ProviderEvent>, n: nat, events: nat, bytes: nat, written: bool)
    requires n < |es| && n <= Come(es, 0, events, bytes)
    requires WithinLimits(es, n + 1, events, bytes) && Did(works, start, here, FirstWrites(own, said, es, n), true)
    requires Did(works, here, now, own(SaidBefore(said, es, n), es[n]), written)
    ensures if written && Acceptable(es[n]) then Did(works, start, now, FirstWrites(own, said, es, n + 1), true)
            else Did(works, start, now, StreamWrites(own, said, es, events, bytes), written)
    ensures Come(es, 0, events, bytes) > n <==> Acceptable(es[n])
  {
    ComeNext(es, 0, n, events, bytes);
    var past, more := FirstWrites(own, said, es, n), own(SaidBefore(said, es, n), es[n]);
    DidBoth(works, start, here, now, past, more, written);
    if !(written && Acceptable(es[n])) {
      StreamGoesOn(own, said, es, n, events, bytes);
      DidLonger(works, start, now, past + more, StreamWrites(own, said, es, events, bytes), written);
    }
  }

  // ----- a whole turn -----

  predicate AllWork(works: nat -> bool, trace: seq<Write>, plan: seq<Write>) {
    forall k: nat | |trace| <= k < |trace| + |plan| :: works(k)
  }

  /** The trace after trying these writes, up to the first that fails. */
  function Tried(works: nat -> bool, trace: seq<Write>, plan: seq<Write>): seq<Write>
    decreases plan
  {
    if plan == [] then trace
    else if !works(|trace|) then trace + [plan[0]]
    else Tried(works, trace + [plan[0]], plan[1..])
  }

  lemma {:induction false} TriedIsDone(works: nat -> bool, trace: seq<Write>, plan: seq<Write>)
    ensures Did(works, trace, Tried(works, trace, plan), plan, AllWork(works, trace, plan))
    decreases plan
  {
    if plan != [] {
      DidOne(works, trace, plan[0]);
      assert plan == [plan[0]] + plan[1..];
      if works(|trace|) {
        TriedIsDone(works, trace + [plan[0]], plan[1..]);
        assert AllWork(works, trace, plan) <==> AllWork(works, trace + [plan[0]], plan[1..]);
        DidBoth(works, trace, trace + [plan[0]], Tried(works, trace, plan), [plan[0]], plan[1..],
          AllWork(works, trace, plan));
      } else {
        DidFail(works, trace, trace + [plan[0]], [plan[0]], plan[1..]);
      }
    }
  }

  /** There is one way only to try them. */
  lemma {:induction false} DoneIsTried(
    works: nat -> bool, from: seq<Write>, to: seq<Write>, plan: seq<Write>, ok: bool)
    requires Did(works, from, to, plan, ok)
    ensures to == Tried(works, from, plan) && ok == AllWork(works, from, plan)
  {
    TriedIsDone(works, from, plan);
    var tried := Tried(works, from, plan);
    if !ok {
      assert |tried| == |to|;
      assert to == (from + plan)[..|to|] && tried == (from + plan)[..|tried|];
    }
  }

  /** What the outside world answers during one call; `works` tells which writes of its turn work. */
  datatype Circumstances = Circumstances(
    configured: bool, scoped: bool, available: bool, policyRevision: string, exhausted: bool, leased: bool,
    contextCreated: bool, stream: Stream,
    finalized: bool, refinalized: bool, redacted: bool, works: nat -> bool)

  /**
   * The answer and the log of a turn that failed at this point; it may be retried exactly when the message was not
   * logged. A checkpoint that cannot be written is passed over.
   */
  function Failing(
    m: Message, works: nat -> bool, problem: Ending, trace: seq<Write>, finalized: bool, redacted: bool)
    : (Outcome, seq<Kind>)
  {
    var retrySafe := UserMessages(LogOf(works, trace)) == 0;
    var from := if finalized then trace + [Some(Checkpointed)] else trace;
    var plan := FailureWrites(if problem.OutOfCapacity? then Some(retrySafe) else None, redacted);
    var answer :=
      if problem.OutOfCapacity? && AllWork(works, from, plan) then CapacityExhausted(m.provider, retrySafe) else Failed;
    (answer, LogOf(works, Tried(works, from, plan)))
  }

  /** The answer and the log of a turn that came to this point after its stream. */
  function Closing(m: Message, x: Circumstances, said: bool, trace: seq<Write>): (Outcome, seq<Kind>) {
    var plan := ClosingWrites(said, m, x.finalized);
    var closed := Tried(x.works, trace, plan);
    if x.finalized && AllWork(x.works, trace, plan)
    then (Success(LogOf(x.works, closed)), LogOf(x.works, closed))
    else
      var released := x.finalized && (said || x.works(|trace|));
      Failing(m, x.works, Broken, closed, !released && x.refinalized, x.redacted)
  }

  /** The answer and the log of a turn, once it holds its workspace lease. */
  function TurnResult(m: Message, x: Circumstances, events: nat, bytes: nat): (Outcome, seq<Kind>) {
    var plan := OpeningWrites(m, x.contextCreated, x.stream.events, events, bytes);
    var followed := Tried(x.works, [], plan);
    if !x.contextCreated || !Through(x.stream.events, events, bytes) || !AllWork(x.works, [], plan)
      then Failing(m, x.works, Broken, followed, x.refinalized, x.redacted)
    else if !x.stream.ending.Finished? then Failing(m, x.works, x.stream.ending, followed, x.refinalized, x.redacted)
    else Closing(m, x, Active(x.stream.events), followed)
  }

  lemma {:induction false} CountConcat(a: seq<Kind>, b: seq<Kind>, p: Kind -> bool)
    ensures Count(a + b, p) == Count(a, p) + Count(b, p)
  {
    if b == [] {
      assert a + b == a;
    } else {
      assert (a + b)[..|a + b| - 1] == a + b[..|b| - 1];
      CountConcat(a, b[..|b| - 1], p);
    }
  }

  ghost predicate Silent(plan: seq<Write>) {
    forall i | 0 <= i < |plan| && plan[i].Some? :: !plan[i].value.UserMessage?
  }

  lemma {:induction false} SilentLogs(works: nat -> bool, trace: seq<Write>, plan: seq<Write>)
    requires Silent(plan)
    ensures UserMessages(LogOf(works, Tried(works, trace, plan))) == UserMessages(LogOf(works, trace))
    ensures LogOf(works, trace) <= LogOf(works, Tried(works, trace, plan))
    decreases plan
  {
    if plan != [] {
      LogOfOneMore(works, trace, plan[0]);
      assert LogOf(works, trace) + [] == LogOf(works, trace);
      if works(|trace|) && plan[0].Some? { CountOneMore(LogOf(works, trace), plan[0].value, IsUserMessage); }
      if works(|trace|) { SilentLogs(works, trace + [plan[0]], plan[1..]); }
    }
  }

  /** What a failed turn answers, and that failing logs no message. */
  lemma {:induction false} FailingAnswers(
    m: Message, works: nat -> bool, problem: Ending, trace: seq<Write>, finalized: bool, redacted: bool)
    ensures var (r, events) := Failing(m, works, problem, trace, finalized, redacted);
      && UserMessages(events) == UserMessages(LogOf(works, trace)) && LogOf(works, trace) <= events
      && (r == Failed || (problem.OutOfCapacity? && r == CapacityExhausted(m.provider, UserMessages(events) == 0)))
  {
    var retrySafe := UserMessages(LogOf(works, trace)) == 0;
    var plan := FailureWrites(if problem.OutOfCapacity? then Some(retrySafe) else None, redacted);
    LogOfOneMore(works, trace, Some(Checkpointed));
    CountOneMore(LogOf(works, trace), Checkpointed, IsUserMessage);
    assert LogOf(works, trace) + [] == LogOf(works, trace);
    SilentLogs(works, if finalized then trace + [Some(Checkpointed)] else trace, plan);
  }

  // ----- the turn -----

  /** The local state of one call of submitMessage once it holds its workspace lease. */
  class Turn {
    const m: Message
    const providerEventLimit: nat
    const providerByteLimit: nat
    const works: nat -> bool       // whether the turn's n-th write to the store works; a failing one writes nothing
    var events: seq<Kind>
    var userMessageAppended: bool
    var writes: nat
    ghost var trace: seq<Write>    // what was tried to write so far

    ghost predicate Valid()
      reads this
    {
      && writes == |trace| && events == LogOf(works, trace) && Orderly(events, m)
      && userMessageAppended == (UserMessages(events) == 1)
      && ProviderEvents(events) <= providerEventLimit
    }

    constructor (m: Message, providerEventLimit: nat, providerByteLimit: nat, works: nat -> bool)
      ensures Valid() && trace == [] && events == [] && !userMessageAppended
      ensures this.m == m && this.providerEventLimit == providerEventLimit
        && this.providerByteLimit == providerByteLimit && this.works == works
    {
      this.m, this.providerEventLimit, this.providerByteLimit, this.works :=
        m, providerEventLimit, providerByteLimit, works;
      events, userMessageAppended, writes, trace := [], false, 0, [];
    }
  
    /** One write that logs nothing. */
    method Attempt() returns (ok: bool)
      requires Valid()
      modifies this`writes, this`trace
      ensures Valid() && Did(works, old(trace), trace, [None], ok)
    {
      ok := works(writes);
      writes := writes + 1;
      LogOfOneMore(works, trace, None);
      DidOne(works, trace, None);
      trace := trace + [None];
    }

    /** One write that logs an event. */
    method Store(k: Kind) returns (ok: bool)
      requires writes == |trace| && events == LogOf(works, trace)
      modifies this`events, this`writes, this`trace
      ensures writes == |trace| && events == LogOf(works, trace)
      ensures events == (if ok then old(events) + [k] else old(events))
      ensures ok == works(old(writes)) && Did(works, old(trace), trace, [Some(k)], ok)
    {
      ok := works(writes);
      writes := writes + 1;
      if ok { events := events + [k]; }
      LogOfOneMore(works, trace, Some(k));
      DidOne(works, trace, Some(k));
      trace := trace + [Some(k)];
    }

    method Append(k: Kind) returns (ok: bool)
      requires Valid() && !k.UserMessage? && !FromProvider(k)
      modifies this`events, this`writes, this`trace
      ensures Valid() && Did(works, old(trace), trace, [Some(k)], ok)
      ensures ProviderEvents(events) == ProviderEvents(old(events)) && UserMessages(events) == UserMessages(old(events))
      ensures old(events) <= events && (ok ==> k in events)
    {
      OrderlyGrows(events, m, k);
      CountOneMore(events, k, IsUserMessage);
      CountOneMore(events, k, FromProvider);
      ok := Store(k);
    }

    method AppendUserMessage() returns (ok: bool)
      requires Valid()
      modifies this
      ensures Valid() && userMessageAppended == ok == old(userMessageAppended || works(writes))
      ensures Did(works, old(trace), trace, DueWrites(old(userMessageAppended), m), ok)
      ensures ProviderEvents(events) == ProviderEvents(old(events))
    {
      if userMessageAppended {
        DidNothing(works, trace);
        return true;
      }
      var k := UserMessage(m.clientMessageId);
      OrderlyGrows(events, m, k);
      CountOneMore(events, k, IsUserMessage);
      CountOneMore(events, k, FromProvider);
      ok := Store(k);
      userMessageAppended := ok;
    }

    /** The event itself. */
    method AppendEvent(k: Kind) returns (ok: bool)
      requires Valid() && FromProvider(k) && ProviderEvents(events) < providerEventLimit
      requires !k.SessionBound? ==> userMessageAppended
      modifies this`events, this`writes, this`trace
      ensures Valid() && Did(works, old(trace), trace, [Some(k)], ok)
      ensures ProviderEvents(events) <= ProviderEvents(old(events)) + 1
    {
      EventGrows(events, m, k);
      ok := Store(k);
    }

    /** What comes after an event: storing a new binding, and the redaction that was applied. */
    method LogRest(e: ProviderEvent) returns (ok: bool)
      requires Valid()
      modifies this`events, this`writes, this`trace
      ensures Valid() && ProviderEvents(events) == ProviderEvents(old(events))
      ensures Did(works, old(trace), trace, RestWrites(e), ok)
    {
      ghost var redaction: seq<Write> := if e.redacted then [Some(RedactionApplied)] else [];
      ghost var start := trace;
      ok := true;
      DidNothing(works, start);
      if e.Bound? { ok := Attempt(); }
      ghost var bound: seq<Write> := if e.Bound? then [None] else [];
      assert Did(works, start, trace, bound, ok);
      if !ok {
        DidFail(works, start, trace, bound, redaction);
        return;
      }
      ghost var middle := trace;
      DidNothing(works, middle);
      if e.redacted { ok := Append(RedactionApplied); }
      DidBoth(works, start, middle, trace, bound, redaction, ok);
    }

    /** The event, and what comes after it. */
    method LogKind(e: ProviderEvent) returns (ok: bool)
      requires Valid() && ProviderEvents(events) < providerEventLimit && (!e.Bound? ==> userMessageAppended)
      modifies this`events, this`writes, this`trace
      ensures Valid() && ProviderEvents(events) <= ProviderEvents(old(events)) + 1
      ensures Did(works, old(trace), trace, [Some(KindOf(e))] + RestWrites(e), ok)
    {
      ghost var start := trace;
      ok := AppendEvent(KindOf(e));
      ghost var logged := trace;
      if ok {
        ok := LogRest(e);
        DidBoth(works, start, logged, trace, [Some(KindOf(e))], RestWrites(e), ok);
      } else {
        DidFail(works, start, logged, [Some(KindOf(e))], RestWrites(e));
      }
    }

    /** Logs one provider event, and the redaction that was applied to it. */
    method LogProviderEvent(e: ProviderEvent) returns (ok: bool)
      requires Valid() && ProviderEvents(events) < providerEventLimit && (!e.Bound? ==> userMessageAppended)
      modifies this`events, this`writes, this`trace
      ensures Valid() && ProviderEvents(events) <= ProviderEvents(old(events)) + 1
      ensures Did(works, old(trace), trace, OwnWrites(e), ok)
    {
      if !e.Approval? {
        ok := LogKind(e);
        return;
      }
      ghost var start := trace;
      ok := Attempt();
      ghost var middle := trace;
      if ok {
        ok := LogKind(e);
        DidBoth(works, start, middle, trace, [None], [Some(KindOf(e))] + RestWrites(e), ok);
      } else {
        DidFail(works, start, middle, [None], [Some(KindOf(e))] + RestWrites(e));
      }
    }

    /** One event of the stream: all but session binding bring the user's message into the log first. */
    method Handle(e: ProviderEvent) returns (ok: bool, ghost written: bool)
      requires Valid() && ProviderEvents(events) < providerEventLimit
      modifies this
      ensures Valid() && ProviderEvents(events) <= ProviderEvents(old(events)) + 1
      ensures userMessageAppended == (old(userMessageAppended) || (!e.Bound? && old(works(writes))))
      ensures Did(works, old(trace), trace, EventWrites(old(userMessageAppended), m, e), written)
      ensures ok <==> written && Acceptable(e)
      ensures var all := old(events) + EventLog(old(userMessageAppended), m, e);
        old(events) <= events <= all && (written ==> events == all)
    {
      EventLogs(userMessageAppended, m, e);
      ghost var start, plan := trace, EventWrites(userMessageAppended, m, e);
      ok, written := WriteEvent(e);
      DidLogs(works, start, trace, plan, written);
    }

    method WriteEvent(e: ProviderEvent) returns (ok: bool, ghost written: bool)
      requires Valid() && ProviderEvents(events) < providerEventLimit
      modifies this
      ensures Valid() && ProviderEvents(events) <= ProviderEvents(old(events)) + 1
      ensures userMessageAppended == (old(userMessageAppended) || (!e.Bound? && old(works(writes))))
      ensures Did(works, old(trace), trace, EventWrites(old(userMessageAppended), m, e), written)
      ensures ok <==> written && Acceptable(e)
    {
      ghost var due := if e.Bound? then [] else DueWrites(userMessageAppended, m);
      ghost var own := if Acceptable(e) then OwnWrites(e) else [];
      ghost var start := trace;
      ok := true;
      DidNothing(works, start);
      if !e.Bound? { ok := AppendUserMessage(); }
      assert Did(works, start, trace, due, ok);
      written := ok;
      if !ok {
        DidFail(works, start, trace, due, own);
        return;
      }
      ghost var middle := trace;
      DidNothing(works, middle);
      if e.Approval? && !e.valid {
        DidBoth(works, start, middle, middle, due, own, true);
        return false, true;
      }
      ok := LogProviderEvent(e);
      written := ok;
      DidBoth(works, start, middle, trace, due, own, ok);
    }

    /** The turn has come through the first `n` events of the stream. */
    ghost predicate Midway(start: seq<Write>, said: bool, es: seq<ProviderEvent>, n: nat, bytes: nat)
      reads this
    {
      && Valid() && ProviderEvents(events) <= n <= |es| && n <= providerEventLimit
      && bytes == Bytes(es, n) <= providerByteLimit && userMessageAppended == SaidBefore(said, es, n)
      && n <= Come(es, 0, providerEventLimit, providerByteLimit)
      && Did(works, start, trace, FirstWrites(PlanFor(m), said, es, n), true)
    }

    /** The turn has not come through the stream, or a write failed. */
    ghost predicate Stopped(start: seq<Write>, said: bool, es: seq<ProviderEvent>, written: bool)
      reads this
    {
      && Valid()
      && Did(works, start, trace, StreamWrites(PlanFor(m), said, es, providerEventLimit, providerByteLimit), written)
      && (written ==> !Through(es, providerEventLimit, providerByteLimit))
    }

    /** The turn has come through the whole stream. */
    ghost predicate Came(start: seq<Write>, said: bool, es: seq<ProviderEvent>)
      reads this
    {
      && Valid() && Through(es, providerEventLimit, providerByteLimit)
      && Did(works, start, trace, StreamWrites(PlanFor(m), said, es, providerEventLimit, providerByteLimit), true)
      && userMessageAppended == SaidBefore(said, es, |es|)
    }

    lemma {:induction false} ComesThrough(start: seq<Write>, said: bool, es: seq<ProviderEvent>, bytes: nat)
      requires Midway(start, said, es, |es|, bytes)
      ensures Came(start, said, es)
    {
    }

    /** Handles the next event, which is within the limits. */
    method HandleNext(
      e: ProviderEvent, ghost n: nat, ghost bytes: nat, ghost start: seq<Write>, ghost said: bool,
      ghost es: seq<ProviderEvent>)
      returns (ok: bool, ghost written: bool)
      requires Midway(start, said, es, n, bytes) && n < |es| && e == es[n]
      requires WithinLimits(es, n + 1, providerEventLimit, providerByteLimit)
      modifies this
      ensures if ok then Midway(start, said, es, n + 1, bytes + e.bytes) else Stopped(start, said, es, written)
    {
      ghost var here := trace;
      ok, written := Handle(e);
      OneEventDone(works, PlanFor(m), start, here, trace, said, es, n, providerEventLimit, providerByteLimit, written);
    }

    /** The next event goes over a limit. */
    lemma {:induction false} StopsAtLimit(
      start: seq<Write>, said: bool, es: seq<ProviderEvent>, n: nat, bytes: nat)
      requires Midway(start, said, es, n, bytes) && n < |es|
      requires !WithinLimits(es, n + 1, providerEventLimit, providerByteLimit)
      ensures Stopped(start, said, es, true)
    {
      hide FirstWrites;
      ComeNext(es, 0, n, providerEventLimit, providerByteLimit);
    }

    /** Counts the next event and handles it, unless it goes over a limit. */
    method TakeEvent(
      e: ProviderEvent, n: nat, bytes: nat, ghost start: seq<Write>, ghost said: bool, ghost es: seq<ProviderEvent>)
      returns (ok: bool, ghost written: bool, providerBytes: nat)
      requires Midway(start, said, es, n, bytes) && n < |es| && e == es[n]
      modifies this
      ensures if ok then Midway(start, said, es, n + 1, providerBytes) else Stopped(start, said, es, written)
    {
      providerBytes := bytes + e.bytes;
      if n + 1 > providerEventLimit || providerBytes > providerByteLimit {
        StopsAtLimit(start, said, es, n, bytes);
        return false, true, providerBytes;
      }
      ok, written := HandleNext(e, n, bytes, start, said, es);
    }

    /** Handles the events of a stream in order; `through` tells that none was a problem. */
    method TakeEvents(es: seq<ProviderEvent>, ghost start: seq<Write>, ghost said: bool)
      returns (through: bool, ghost written: bool, providerBytes: nat)
      requires Midway(start, said, es, 0, 0)
      modifies this
      ensures if through then Came(start, said, es) else Stopped(start, said, es, written)
    {
      through, written, providerBytes := true, true, 0;
      for providerEventCount := 0 to |es|
        invariant through && Midway(start, said, es, providerEventCount, providerBytes)
      {
        through, written, providerBytes :=
          TakeEvent(es[providerEventCount], providerEventCount, providerBytes, start, said, es);
        if !through { return; }
      }
      ComesThrough(start, said, es, providerBytes);
    }

    /**
     * Follows the provider to the end of its stream, or to the first problem: an event over a limit, an approval that
     * lacks fields, or a write that fails.
     */
    method Follow(stream: Stream) returns (problem: Option<Ending>, ghost written: bool)
      requires Valid() && ProviderEvents(events) == 0
      modifies this
      ensures Valid()
      ensures Did(works, old(trace), trace, AllOf(old(userMessageAppended), stream), written)
      ensures problem == if !written || !Fits(stream) then Some(Broken)
                         else if stream.ending.Finished? then None else Some(stream.ending)
      ensures written && Fits(stream) ==>
        userMessageAppended == SaidBefore(old(userMessageAppended), stream.events, |stream.events|)
    {
      DidNothing(works, trace);
      var through, bytes;
      through, written, bytes := TakeEvents(stream.events, trace, userMessageAppended);
      if !through { return Some(Broken), written; }
      return if stream.ending.Finished? then None else Some(stream.ending), true;
    }

    ghost function AllOf(said: bool, stream: Stream): seq<Write> {
      StreamWrites(PlanFor(m), said, stream.events, providerEventLimit, providerByteLimit)
    }

    ghost predicate Fits(stream: Stream) { Through(stream.events, providerEventLimit, providerByteLimit) }

    /** Two events that belong to no provider, or an entry of the turn before the second. */
    method AppendTwo(first: Write, second: Kind) returns (ok: bool)
      requires Valid() && !second.UserMessage? && !FromProvider(second)
      requires first.Some? ==> !first.value.UserMessage? && !FromProvider(first.value)
      modifies this`events, this`writes, this`trace
      ensures Valid() && Did(works, old(trace), trace, [first] + [Some(second)], ok)
      ensures ProviderEvents(events) == ProviderEvents(old(events)) && UserMessages(events) == UserMessages(old(events))
    {
      ghost var start := trace;
      if first.Some? { ok := Append(first.value); } else { ok := Attempt(); }
      ghost var middle := trace;
      if ok {
        ok := Append(second);
        DidBoth(works, start, middle, trace, [first], [Some(second)], ok);
      } else {
        DidFail(works, start, middle, [first], [Some(second)]);
      }
    }

    /** Everything between the lease and the end of the stream. */
    method Open(contextCreated: bool, stream: Stream) returns (problem: Option<Ending>, ghost written: bool)
      requires Valid() && ProviderEvents(events) == 0 && !userMessageAppended
      modifies this
      ensures Valid()
      ensures Did(works, old(trace), trace, OpeningWrites(m, contextCreated, stream.events, providerEventLimit,
        providerByteLimit), written)
      ensures problem == if !written || !contextCreated || !Fits(stream) then Some(Broken)
                         else if stream.ending.Finished? then None else Some(stream.ending)
      ensures problem.None? ==> (userMessageAppended <==> Active(stream.events))
    {
      ghost var start := trace;
      ghost var streamed := AllOf(false, stream);
      ghost var last: seq<Write> := if contextCreated then STARTED + streamed else [];
      var ok := AppendTwo(None, Checkpointed);
      ghost var entered := trace;
      if !ok {
        DidFail(works, start, entered, ENTERED, last);
        return Some(Broken), false;
      }
      if !contextCreated {
        assert ENTERED + last == ENTERED;
        return Some(Broken), true;
      }
      problem, written := Start(stream);
      DidBoth(works, start, entered, trace, ENTERED, last, written);
    }

    /** From the start of the turn on. */
    method Start(stream: Stream) returns (problem: Option<Ending>, ghost written: bool)
      requires Valid() && ProviderEvents(events) == 0 && !userMessageAppended
      modifies this
      ensures Valid()
      ensures Did(works, old(trace), trace,
                STARTED + AllOf(false, stream), written)
      ensures problem == if !written || !Fits(stream) then Some(Broken)
                         else if stream.ending.Finished? then None else Some(stream.ending)
      ensures problem.None? ==> (userMessageAppended <==> Active(stream.events))
    {
      ghost var start := trace;
      ghost var streamed := AllOf(false, stream);
      var ok := AppendTwo(Some(PolicyObserved), TurnStarted);
      ghost var begun := trace;
      if !ok {
        DidFail(works, start, begun, STARTED, streamed);
        return Some(Broken), false;
      }
      problem, written := Follow(stream);
      DidBoth(works, start, begun, trace, STARTED, streamed, written);
    }

    /** The rest of a turn that is over and gave back its workspace. */
    method Finish() returns (ok: bool)
      requires Valid()
      modifies this`events, this`writes, this`trace
      ensures Valid() && Did(works, old(trace), trace, COMPLETED, ok)
      ensures UserMessages(events) == UserMessages(old(events)) && (ok ==> TurnCompleted in events)
    {
      ghost var start := trace;
      ok := Append(Checkpointed);
      ghost var middle := trace;
      if !ok {
        DidFail(works, start, middle, [Some(Checkpointed)], [Some(TurnCompleted)] + [None]);
        return;
      }
      ok := Append(TurnCompleted);
      ghost var late := trace;
      if ok {
        ok := Attempt();
        DidBoth(works, middle, late, trace, [Some(TurnCompleted)], [None], ok);
      } else {
        DidFail(works, middle, late, [Some(TurnCompleted)], [None]);
      }
      DidBoth(works, start, middle, trace, [Some(Checkpointed)], [Some(TurnCompleted)] + [None], ok);
    }

    /** After the stream: the message is logged at the latest now. */
    method Complete(finalized: bool) returns (ok: bool, released: bool, ghost written: bool)
      requires Valid()
      modifies this
      ensures Valid() && released == (finalized && old(userMessageAppended || works(writes)))
      ensures Did(works, old(trace), trace, ClosingWrites(old(userMessageAppended), m, finalized), written)
      ensures ok <==> written && finalized
      ensures ok ==> UserMessages(events) == 1 && TurnCompleted in events
    {
      ghost var start := trace;
      ghost var due := DueWrites(userMessageAppended, m);
      ok := AppendUserMessage();
      ghost var middle := trace;
      if !ok {
        DidFail(works, start, middle, due, if finalized then COMPLETED else []);
        return false, false, false;
      }
      if !finalized {
        assert due + [] == due;
        return false, false, true;
      }
      ok := Finish();
      DidBoth(works, start, middle, trace, due, COMPLETED, ok);
      return ok, true, ok;
    }

    /** The rest of a turn that failed. */
    method LogFailure(retrySafe: Option<bool>, redacted: bool) returns (ok: bool)
      requires Valid()
      modifies this`events, this`writes, this`trace
      ensures Valid() && Did(works, old(trace), trace, FailureWrites(retrySafe, redacted), ok)
    {
      ghost var start := trace;
      ghost var redaction: seq<Write> := if redacted then [Some(RedactionApplied)] else [];
      ok := Append(TurnFailed(retrySafe));
      ghost var middle := trace;
      if !ok {
        DidFail(works, start, middle, [Some(TurnFailed(retrySafe))], redaction + [None]);
        return;
      }
      DidNothing(works, middle);
      if redacted { ok := Append(RedactionApplied); }
      ghost var late := trace;
      assert Did(works, middle, late, redaction, ok);
      if ok {
        ok := Attempt();
        DidBoth(works, middle, late, trace, redaction, [None], ok);
      } else {
        DidFail(works, middle, late, redaction, [None]);
      }
      DidBoth(works, start, middle, trace, [Some(TurnFailed(retrySafe))], redaction + [None], ok);
    }

    /** The catch block: a capacity failure may be retried exactly when the message was not logged. */
    method Fail(problem: Ending, finalized: bool, redacted: bool) returns (r: Outcome)
      requires Valid()
      modifies this`events, this`writes, this`trace
      ensures Valid() && (r, events) == Failing(m, works, problem, old(trace), finalized, redacted)
    {
      ghost var before, safe := trace, UserMessages(events) == 0;
      if finalized {
        var checkpointed := Append(Checkpointed);
        assert trace == before + [Some(Checkpointed)];
      }
      assert safe == !userMessageAppended;
      var retrySafe := if problem.OutOfCapacity? then Some(!userMessageAppended) else None;
      ghost var from := trace;
      var ok := LogFailure(retrySafe, redacted);
      DoneIsTried(works, from, trace, FailureWrites(retrySafe, redacted), ok);
      r := if ok && problem.OutOfCapacity? then CapacityExhausted(m.provider, !userMessageAppended) else Failed;
    }

    /** Completes the turn, or fails it. */
    method Close(x: Circumstances) returns (r: Outcome)
      requires Valid() && x.works == works
      modifies this
      ensures Valid() && (r, events) == Closing(m, x, old(userMessageAppended), old(trace))
      ensures if r.Success? then r == Success(events) && UserMessages(events) == 1 && TurnCompleted in events
              else r == Failed
    {
      ghost var start, plan := trace, ClosingWrites(userMessageAppended, m, x.finalized);
      ghost var written;
      var ok, released;
      ok, released, written := Complete(x.finalized);
      DoneIsTried(works, start, trace, plan, written);
      if ok { return Success(events); }
      FailingAnswers(m, works, Broken, trace, !released && x.refinalized, x.redacted);
      r := Fail(Broken, !released && x.refinalized, x.redacted);
    }
  }

  // ----- the coordinator -----

  /** The events of one turn, for one submitted message. */
  datatype Logged = Logged(message: Message, events: seq<Kind>)

  /** What a coordinator knows: active providers and turns by conversation, answers by conversation and message. */
  datatype Books = Books(
    activeProvider: map<string, Provider>, activeTurns: set<string>,
    responses: map<(string, string), (string, seq<Kind>)>)

  /** The checks that end the call before a turn starts; None lets it start. */
  function Admitted(b: Books, c: string, m: Message, x: Circumstances): Option<Outcome> {
    if !x.configured then Some(ProviderUnavailable)
    else if c !in b.activeProvider then Some(Failed)
    else if b.activeProvider[c] != m.provider then Some(HandoffRequired)
    else if !x.scoped then Some(Failed)
    else if !x.available then Some(ProviderUnavailable)
    else if x.policyRevision != m.policyRevision then Some(PolicyConflict(x.policyRevision))
    else if c in b.activeTurns then Some(AlreadyActive)
    else if (c, m.clientMessageId) in b.responses then
      var (hash, events) := b.responses[(c, m.clientMessageId)];
      if hash == m.hash then Some(Success(events)) else Some(KeyReused)
    else if x.exhausted then Some(CapacityExhausted(m.provider, true))
    else if !x.leased then Some(WorkspaceUnavailable)
    else None
  }

  /** What a submission is answered. */
  function Answer(b: Books, c: string, m: Message, x: Circumstances, events: nat, bytes: nat): Outcome {
    match Admitted(b, c, m, x)
    case Some(refusal) => refusal
    case None => TurnResult(m, x, events, bytes).0
  }

  class ConversationCoordinator {
    const providerEventLimit: nat
    const providerByteLimit: nat
    var activeProvider: map<string, Provider>
    var activeTurns: set<string>
    var responses: map<(string, string), (string, seq<Kind>)>   // by conversation and message: request hash and answer
    var turns: seq<Logged>                                       // the logged turns, in order of their start

    ghost predicate Valid()
      reads this
    {
      && (forall i | 0 <= i < |turns| :: Orderly(turns[i].events, turns[i].message))
      && (forall i | 0 <= i < |turns| :: ProviderEvents(turns[i].events) <= providerEventLimit)
      && (forall key | key in responses :: UserMessages(responses[key].1) == 1)
    }

    constructor (providerEventLimit: nat, providerByteLimit: nat)
      ensures Valid() && turns == [] && activeTurns == {} && responses == map[] && activeProvider == map[]
      ensures this.providerEventLimit == providerEventLimit && this.providerByteLimit == providerByteLimit
    {
      this.providerEventLimit, this.providerByteLimit := providerEventLimit, providerByteLimit;
      activeProvider, activeTurns, responses, turns := map[], {}, map[], [];
    }

    ghost function Now(): Books
      reads this
    {
      Books(activeProvider, activeTurns, responses)
    }

    method RunTurn(m: Message, x: Circumstances) returns (r: Outcome, events: seq<Kind>)
      ensures Orderly(events, m) && ProviderEvents(events) <= providerEventLimit
      ensures (r, events) == TurnResult(m, x, providerEventLimit, providerByteLimit)
      ensures r == Failed || r.CapacityExhausted? || r == Success(events)
      ensures r.Success? ==> UserMessages(events) == 1 && TurnCompleted in events && x.stream.ending.Finished?
      ensures r.CapacityExhausted? ==>
        x.stream.ending == OutOfCapacity && r.provider == m.provider && (r.retrySafe <==> UserMessages(events) == 0)
    {
      var turn := new Turn(m, providerEventLimit, providerByteLimit, x.works);
      ghost var written;
      var problem;
      problem, written := turn.Open(x.contextCreated, x.stream);
      DoneIsTried(x.works, [], turn.trace, OpeningWrites(m, x.contextCreated, x.stream.events, providerEventLimit,
        providerByteLimit), written);
      if problem.None? {
        r := turn.Close(x);
      } else {
        FailingAnswers(m, x.works, problem.value, turn.trace, x.refinalized, x.redacted);
        r := turn.Fail(problem.value, x.refinalized, x.redacted);
      }
      events := turn.events;
    }

    method SubmitMessage(c: string, m: Message, x: Circumstances) returns (r: Outcome)
      requires Valid()
      modifies this
      ensures Valid() && activeProvider == old(activeProvider) && activeTurns == old(activeTurns)
      ensures r == Answer(old(Now()), c, m, x, providerEventLimit, providerByteLimit)
      ensures Admitted(old(Now()), c, m, x).Some? ==>
        r == Admitted(old(Now()), c, m, x).value && turns == old(turns) && responses == old(responses)
      ensures Admitted(old(Now()), c, m, x).None? ==>
        && turns == old(turns) + [Logged(m, TurnResult(m, x, providerEventLimit, providerByteLimit).1)]
        && (r == Failed || r.CapacityExhausted? || r == Success(turns[|old(turns)|].events))
        && (r.Success? ==> UserMessages(turns[|old(turns)|].events) == 1 && x.stream.ending.Finished?)
        && (r.CapacityExhausted? ==>
              && x.stream.ending == OutOfCapacity && r.provider == m.provider
              && (r.retrySafe <==> UserMessages(turns[|old(turns)|].events) == 0))
        && responses == if r.Success? then old(responses)[(c, m.clientMessageId) := (m.hash, r.events)]
             else old(responses)
      ensures r.Success? ==>
        (c, m.clientMessageId) in responses && responses[(c, m.clientMessageId)] == (m.hash, r.events)
    {
      hide TurnResult, Count;
      if !x.configured { return ProviderUnavailable; }
      if c !in activeProvider { return Failed; }
      if activeProvider[c] != m.provider { return HandoffRequired; }
      if !x.scoped { return Failed; }
      if !x.available { return ProviderUnavailable; }
      if x.policyRevision != m.policyRevision { return PolicyConflict(x.policyRevision); }
      if c in activeTurns { return AlreadyActive; }
      if (c, m.clientMessageId) in responses {
        var (hash, prior) := responses[(c, m.clientMessageId)];
        if hash != m.hash { return KeyReused; }
        return Success(prior);
      }
      if x.exhausted { return CapacityExhausted(m.provider, true); }
      if !x.leased { return WorkspaceUnavailable; }
      activeTurns := activeTurns + {c};
      var events: seq<Kind>;
      r, events := RunTurn(m, x);
      turns := turns + [Logged(m, events)];
      if r.Success? { responses := responses[(c, m.clientMessageId) := (m.hash, events)]; }
      activeTurns := activeTurns - {c};
    }

    /** Hands the conversation to another provider, if that one is available. */
    method SwitchProvider(c: string, target: Provider, available: bool) returns (ok: bool)
      requires Valid()
      modifies this`activeProvider
      ensures Valid()
      ensures ok <==> c !in activeTurns && available && c in old(activeProvider)
      ensures activeProvider == if ok then old(activeProvider)[c := target] else old(activeProvider)
    {
      if c in activeTurns || !available || c !in activeProvider { return false; }
      activeProvider := activeProvider[c := target];
      return true;
    }
  }
}
