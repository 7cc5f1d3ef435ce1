/** What a turn answers and logs, told from its stream and from which of its writes work. */
module TurnOutcomes {
  import opened Wrappers
  import opened TurnLog

  // ----- the stream -----

  /** The kind under which an event is logged. */
  predicate Belongs(k: Kind, e: ProviderEvent) {
    match e
    case Bound(_, _) => k == SessionBound
    case Approval(_, _, _) => k == ApprovalRequested
    case Other(_, _, name) => k == Activity(name)
  }

  /** What of a log came from the provider. */
  function OfProvider(ks: seq<Kind>): seq<Kind> {
    if ks == [] then []
    else
      var last := ks[|ks| - 1];
      OfProvider(ks[..|ks| - 1]) +
      if last.SessionBound? || last.ApprovalRequested? || last.Activity? then [last] else []
  }

  lemma {:induction false} OfProviderConcat(a: seq<Kind>, b: seq<Kind>)
    ensures OfProvider(a + b) == OfProvider(a) + OfProvider(b)
  {
    if b == [] {
      assert a + b == a;
    } else {
      assert (a + b)[..|a + b| - 1] == a + b[..|b| - 1];
      OfProviderConcat(a, b[..|b| - 1]);
    }
  }

  lemma {:induction false} OfProviderOne(k: Kind)
    ensures OfProvider([k]) == if k.SessionBound? || k.ApprovalRequested? || k.Activity? then [k] else []
  {
    assert [k][..0] == [];
  }

  /** The log holds the first `n` events of the stream, in order and under their kinds, and no others. */
  ghost predicate Tells(ks: seq<Kind>, es: seq<ProviderEvent>, n: nat) {
    |OfProvider(ks)| == n <= |es| && forall i | 0 <= i < n :: Belongs(OfProvider(ks)[i], es[i])
  }

  /** What the writes of one event tell. */
  ghost predicate TellsOne(writes: seq<Write>, e: ProviderEvent) {
    var told := OfProvider(Kinds(writes));
    if Acceptable(e) then |told| == 1 && Belongs(told[0], e) else told == []
  }

  lemma {:induction false} DueTold(due: bool, id: string)
    ensures OfProvider(if due then [UserMessage(id)] else []) == []
  {
    OfProviderOne(UserMessage(id));
  }

  lemma {:induction false} OwnTold(k: Kind, redacted: bool)
    requires k.SessionBound? || k.ApprovalRequested? || k.Activity?
    ensures OfProvider([k] + Redacted(redacted)) == [k]
  {
    OfProviderOne(k);
    OfProviderOne(RedactionApplied);
    OfProviderConcat([k], Redacted(redacted));
  }

  lemma {:induction false} LogTells(log: seq<Kind>, due: seq<Kind>, own: seq<Kind>, k: Kind, told: bool)
    requires log == due + own && OfProvider(due) == [] && OfProvider(own) == if told then [k] else []
    ensures OfProvider(log) == if told then [k] else []
  {
    hide OfProvider;
    OfProviderConcat(due, own);
  }

  lemma {:induction false} LogOfEvent(said: bool, m: Message, e: ProviderEvent)
    ensures OfProvider(EventLog(said, m, e)) == if Acceptable(e) then [KindOf(e)] else []
  {
    var due: seq<Kind> := if !said && !e.Bound? then [UserMessage(m.clientMessageId)] else [];
    var own := if Acceptable(e) then [KindOf(e)] + Redacted(e.redacted) else [];
    assert EventLog(said, m, e) == due + own;
    DueTold(!said && !e.Bound?, m.clientMessageId);
    DueTold(false, m.clientMessageId);
    OwnTold(KindOf(e), e.redacted);
    hide OfProvider, EventLog, Redacted;
    LogTells(EventLog(said, m, e), due, own, KindOf(e), Acceptable(e));
  }

  lemma {:induction false} EventTells(said: bool, m: Message, e: ProviderEvent)
    ensures TellsOne(EventWrites(said, m, e), e)
  {
    hide OfProvider, Kinds, EventWrites, EventLog;
    EventLogs(said, m, e);
    LogOfEvent(said, m, e);
  }

  /**
   * One event logs the user's message if that is due, then itself under its kind, then that it was redacted if it was;
   * an approval that lacks fields logs no more than the message.
   */
  lemma {:induction false} EventLogged(said: bool, m: Message, e: ProviderEvent)
    ensures exists k ::
      && Belongs(k, e)
      && Kinds(EventWrites(said, m, e)) ==
           (if said || e.Bound? then [] else [UserMessage(m.clientMessageId)]) +
           (if e.Approval? && !e.valid then [] else [k] + (if e.redacted then [RedactionApplied] else []))
  {
    EventLogs(said, m, e);
    assert Belongs(KindOf(e), e);
  }

  lemma {:induction false} OneMoreTold(
    past: seq<Write>, more: seq<Write>, all: seq<Write>, es: seq<ProviderEvent>, n: nat)
    requires n < |es| && Tells(Kinds(past), es, n) && TellsOne(more, es[n]) && all == past + more
    ensures Tells(Kinds(all), es, if Acceptable(es[n]) then n + 1 else n)
  {
    KindsConcat(past, more);
    OfProviderConcat(Kinds(past), Kinds(more));
  }

  /** The writes planned for each event tell it. */
  ghost predicate TellsEach(own: EventPlan) { forall said, e :: TellsOne(own(said, e), e) }

  lemma {:induction false} PlanTells(m: Message)
    ensures TellsEach(PlanFor(m))
  {
    forall said, e ensures TellsOne(PlanFor(m)(said, e), e) { EventTells(said, m, e); }
  }

  /** The first `n` events that come through are told, and one that lacks fields is not. */
  lemma {:induction false} FirstTell(own: EventPlan, said: bool, es: seq<ProviderEvent>, n: nat)
    requires TellsEach(own) && n <= |es| && forall i | 0 <= i < n :: Acceptable(es[i])
    ensures Tells(Kinds(FirstWrites(own, said, es, n)), es, n)
  {
    if n > 0 {
      FirstTell(own, said, es, n - 1);
      OneMoreEvent(own, said, es, n - 1);
    }
  }

  lemma {:induction false} OneMoreEvent(own: EventPlan, said: bool, es: seq<ProviderEvent>, n: nat)
    requires TellsEach(own) && n < |es| && Tells(Kinds(FirstWrites(own, said, es, n)), es, n)
    ensures Tells(Kinds(FirstWrites(own, said, es, n + 1)), es, if Acceptable(es[n]) then n + 1 else n)
  {
    OneMoreTold(FirstWrites(own, said, es, n), own(SaidBefore(said, es, n), es[n]), FirstWrites(own, said, es, n + 1),
      es, n);
  }

  /** The event and all before it are within both limits, and it lacks nothing. */
  predicate Passes(es: seq<ProviderEvent>, n: nat, events: nat, bytes: nat)
    requires n < |es|
  {
    n + 1 <= events && Bytes(es, n + 1) <= bytes && (es[n].Approval? ==> es[n].valid)
  }

  /** Exactly these come through: the first `n` that pass, and not the next. */
  lemma {:induction false} ComeExactly(es: seq<ProviderEvent>, from: nat, events: nat, bytes: nat)
    requires from <= |es|
    ensures var n := Come(es, from, events, bytes);
      (forall i | from <= i < n :: Passes(es, i, events, bytes)) && (n < |es| ==> !Passes(es, n, events, bytes))
    decreases |es| - from
  {
    if from < Come(es, from, events, bytes) { ComeExactly(es, from + 1, events, bytes); }
  }

  lemma {:induction false} BytesRise(es: seq<ProviderEvent>, n: nat, k: nat)
    requires n <= k <= |es|
    ensures Bytes(es, n) <= Bytes(es, k)
  {
    if n < k { BytesRise(es, n, k - 1); }
  }

  /** A stream comes through exactly when it stays within both limits and no approval of it lacks fields. */
  lemma {:induction false} ThroughExactly(es: seq<ProviderEvent>, events: nat, bytes: nat)
    ensures Through(es, events, bytes) <==>
      |es| <= events && Bytes(es, |es|) <= bytes && forall i | 0 <= i < |es| :: es[i].Approval? ==> es[i].valid
  {
    var n := Come(es, 0, events, bytes);
    ComeExactly(es, 0, events, bytes);
    if n < |es| {
      BytesRise(es, n + 1, |es|);
    } else {
      assert |es| > 0 ==> Passes(es, |es| - 1, events, bytes);
      assert forall i | 0 <= i < |es| && es[i].Approval? :: Passes(es, i, events, bytes);
    }
  }

  lemma {:induction false} SaidExactly(said: bool, es: seq<ProviderEvent>, n: nat)
    requires n <= |es|
    ensures SaidBefore(said, es, n) <==> said || exists i | 0 <= i < n :: !es[i].Bound?
  {
    if n > 0 { SaidExactly(said, es, n - 1); }
  }

  lemma {:induction false} StreamTells(
    m: Message, said: bool, es: seq<ProviderEvent>, events: nat, bytes: nat)
    ensures Tells(Kinds(StreamWrites(PlanFor(m), said, es, events, bytes)), es, Come(es, 0, events, bytes))
  {
    var n := Come(es, 0, events, bytes);
    ComeExactly(es, 0, events, bytes);
    forall i | 0 <= i < n ensures Acceptable(es[i]) { assert Passes(es, i, events, bytes); }
    PlanTells(m);
    FirstTell(PlanFor(m), said, es, n);
    if n < |es| { OneMoreEvent(PlanFor(m), said, es, n); }
  }

  // ----- the whole turn -----

  ghost predicate NoProvider(plan: seq<Write>) {
    forall i | 0 <= i < |plan| && plan[i].Some? :: !FromProvider(plan[i].value)
  }

  lemma {:induction false} NothingTold(works: nat -> bool, trace: seq<Write>, plan: seq<Write>)
    requires NoProvider(plan)
    ensures OfProvider(LogOf(works, Tried(works, trace, plan))) == OfProvider(LogOf(works, trace))
    decreases plan
  {
    if plan != [] {
      LogOfOneMore(works, trace, plan[0]);
      var more := if works(|trace|) && plan[0].Some? then [plan[0].value] else [];
      OfProviderConcat(LogOf(works, trace), more);
      if plan[0].Some? { OfProviderOne(plan[0].value); }
      if works(|trace|) { NothingTold(works, trace + [plan[0]], plan[1..]); }
    }
  }

  lemma {:induction false} NothingInKinds(plan: seq<Write>)
    requires NoProvider(plan)
    ensures OfProvider(Kinds(plan)) == []
  {
    if plan != [] {
      var last := |plan| - 1;
      NothingInKinds(plan[..last]);
      OfProviderConcat(Kinds(plan[..last]), if plan[last].Some? then [plan[last].value] else []);
      if plan[last].Some? { OfProviderOne(plan[last].value); }
    }
  }

  /** How much of the stream comes through in the turn. */
  function Heard(x: Circumstances, events: nat, bytes: nat): (n: nat)
    ensures n <= |x.stream.events|
  {
    if x.contextCreated then Come(x.stream.events, 0, events, bytes) else 0
  }

  function Opening(m: Message, x: Circumstances, events: nat, bytes: nat): seq<Write> {
    OpeningWrites(m, x.contextCreated, x.stream.events, events, bytes)
  }

  lemma {:induction false} OpeningTells(m: Message, x: Circumstances, events: nat, bytes: nat)
    ensures Tells(Kinds(Opening(m, x, events, bytes)), x.stream.events, Heard(x, events, bytes))
  {
    NothingInKinds(ENTERED);
    NothingInKinds(STARTED);
    var stream := StreamWrites(PlanFor(m), false, x.stream.events, events, bytes);
    StreamTells(m, false, x.stream.events, events, bytes);
    KindsConcat(STARTED, stream);
    OfProviderConcat(Kinds(STARTED), Kinds(stream));
    var rest := if x.contextCreated then STARTED + stream else [];
    KindsConcat(ENTERED, rest);
    OfProviderConcat(Kinds(ENTERED), Kinds(rest));
  }

  lemma {:induction false} PrefixTells(a: seq<Kind>, b: seq<Kind>, es: seq<ProviderEvent>, n: nat)
    requires a <= b && Tells(b, es, n)
    ensures Tells(a, es, |OfProvider(a)|) && |OfProvider(a)| <= n
  {
    assert b == a + b[|a|..];
    OfProviderConcat(a, b[|a|..]);
  }

  lemma {:induction false} SameTold(a: seq<Kind>, b: seq<Kind>, es: seq<ProviderEvent>, n: nat)
    requires OfProvider(a) == OfProvider(b) && Tells(a, es, n)
    ensures Tells(b, es, n)
  {
  }

  /** What the log tells once the opening was tried. */
  lemma {:induction false} OpenedTells(m: Message, x: Circumstances, events: nat, bytes: nat)
    ensures var plan := Opening(m, x, events, bytes);
      var told := LogOf(x.works, Tried(x.works, [], plan));
      && Tells(told, x.stream.events, |OfProvider(told)|) && |OfProvider(told)| <= Heard(x, events, bytes)
      && (AllWork(x.works, [], plan) ==> told == Kinds(plan) && |OfProvider(told)| == Heard(x, events, bytes))
  {
    var plan := Opening(m, x, events, bytes);
    var trace := Tried(x.works, [], plan);
    OpeningTells(m, x, events, bytes);
    TriedIsDone(x.works, [], plan);
    DidLogs(x.works, [], trace, plan, AllWork(x.works, [], plan));
    assert [] + Kinds(plan) == Kinds(plan);
    PrefixTells(LogOf(x.works, trace), Kinds(plan), x.stream.events, Heard(x, events, bytes));
  }

  lemma {:induction false} FailureTellsNothing(retrySafe: Option<bool>, redacted: bool)
    ensures NoProvider(FailureWrites(retrySafe, redacted))
  {
  }

  lemma {:induction false} CheckpointTellsNothing(works: nat -> bool, trace: seq<Write>)
    ensures OfProvider(LogOf(works, trace + [Some(Checkpointed)])) == OfProvider(LogOf(works, trace))
  {
    LogOfOneMore(works, trace, Some(Checkpointed));
    OfProviderOne(Checkpointed);
    OfProviderConcat(LogOf(works, trace), if works(|trace|) then [Checkpointed] else []);
  }

  lemma {:induction false} FailingTells(
    m: Message, works: nat -> bool, problem: Ending, trace: seq<Write>, finalized: bool, redacted: bool)
    ensures OfProvider(Failing(m, works, problem, trace, finalized, redacted).1) == OfProvider(LogOf(works, trace))
  {
    var retrySafe := if problem.OutOfCapacity? then Some(UserMessages(LogOf(works, trace)) == 0) else None;
    CheckpointTellsNothing(works, trace);
    FailureTellsNothing(retrySafe, redacted);
    NothingTold(works, if finalized then trace + [Some(Checkpointed)] else trace, FailureWrites(retrySafe, redacted));
  }

  lemma {:induction false} ClosingTells(m: Message, x: Circumstances, said: bool, trace: seq<Write>)
    ensures OfProvider(Closing(m, x, said, trace).1) == OfProvider(LogOf(x.works, trace))
  {
    var plan := ClosingWrites(said, m, x.finalized);
    var released := x.finalized && (said || x.works(|trace|));
    NothingTold(x.works, trace, plan);
    FailingTells(m, x.works, Broken, Tried(x.works, trace, plan), !released && x.refinalized, x.redacted);
  }

  /**
   * However a turn ends, its log tells what came through of the stream, in order, up to where it broke off; and all of
   * it if its writes up to the end of the stream work. Nothing else in it is of the provider.
   */
  lemma {:induction false} TurnTells(m: Message, x: Circumstances, events: nat, bytes: nat)
    ensures var log := TurnResult(m, x, events, bytes).1;
      var told := |OfProvider(log)|;
      && Tells(log, x.stream.events, told) && told <= Heard(x, events, bytes)
      && (AllWork(x.works, [], Opening(m, x, events, bytes)) ==> told == Heard(x, events, bytes))
  {
    var plan := Opening(m, x, events, bytes);
    var trace := Tried(x.works, [], plan);
    OpenedTells(m, x, events, bytes);
    if !x.contextCreated || !Through(x.stream.events, events, bytes) || !AllWork(x.works, [], plan) {
      FailingTells(m, x.works, Broken, trace, x.refinalized, x.redacted);
    } else if !x.stream.ending.Finished? {
      FailingTells(m, x.works, x.stream.ending, trace, x.refinalized, x.redacted);
    } else {
      ClosingTells(m, x, Active(x.stream.events), trace);
    }
    SameTold(LogOf(x.works, trace), TurnResult(m, x, events, bytes).1, x.stream.events,
      |OfProvider(LogOf(x.works, trace))|);
  }

  /** Everything outside its writes that a turn needs for success. */
  predicate GoesWell(x: Circumstances, events: nat, bytes: nat) {
    && x.contextCreated && x.stream.ending.Finished? && x.finalized
    && |x.stream.events| <= events && Bytes(x.stream.events, |x.stream.events|) <= bytes
    && forall i | 0 <= i < |x.stream.events| :: x.stream.events[i].Approval? ==> x.stream.events[i].valid
  }

  /** The writes of a turn that succeeds. */
  function SuccessWrites(m: Message, x: Circumstances, events: nat, bytes: nat): seq<Write> {
    Opening(m, x, events, bytes) + ClosingWrites(Active(x.stream.events), m, true)
  }

  lemma {:induction false} BothWork(works: nat -> bool, a: seq<Write>, b: seq<Write>)
    ensures AllWork(works, [], a + b) <==> AllWork(works, [], a) && AllWork(works, a, b)
  {
  }

  lemma {:induction false} TriedAll(works: nat -> bool, trace: seq<Write>, plan: seq<Write>)
    requires AllWork(works, trace, plan)
    ensures Tried(works, trace, plan) == trace + plan
  {
    TriedIsDone(works, trace, plan);
  }

  /** What follows the stream succeeds exactly when the workspace is given back and each write works. */
  lemma {:induction false} ClosesExactly(m: Message, x: Circumstances, said: bool, trace: seq<Write>)
    ensures var (r, log) := Closing(m, x, said, trace);
      var plan := ClosingWrites(said, m, true);
      && (r.Success? <==> x.finalized && AllWork(x.works, trace, plan))
      && (r.Success? ==> r == Success(log) && log == LogOf(x.works, trace + plan))
  {
    var plan := ClosingWrites(said, m, x.finalized);
    var released := x.finalized && (said || x.works(|trace|));
    FailingAnswers(m, x.works, Broken, Tried(x.works, trace, plan), !released && x.refinalized, x.redacted);
    if AllWork(x.works, trace, plan) { TriedAll(x.works, trace, plan); }
  }

  lemma {:induction false} TriedFromStart(works: nat -> bool, plan: seq<Write>)
    requires AllWork(works, [], plan)
    ensures Tried(works, [], plan) == plan
  {
    TriedAll(works, [], plan);
    assert [] + plan == plan;
  }

  /** A turn gets to close exactly when it comes through its stream and each write of that works. */
  lemma {:induction false} GetsToClose(m: Message, x: Circumstances, events: nat, bytes: nat)
    ensures var open := Opening(m, x, events, bytes);
      if x.contextCreated && Through(x.stream.events, events, bytes) && AllWork(x.works, [], open)
         && x.stream.ending.Finished?
      then TurnResult(m, x, events, bytes) == Closing(m, x, Active(x.stream.events), open)
      else !TurnResult(m, x, events, bytes).0.Success?
  {
    var open := Opening(m, x, events, bytes);
    var trace := Tried(x.works, [], open);
    if !x.contextCreated || !Through(x.stream.events, events, bytes) || !AllWork(x.works, [], open) {
      FailingAnswers(m, x.works, Broken, trace, x.refinalized, x.redacted);
    } else if !x.stream.ending.Finished? {
      FailingAnswers(m, x.works, x.stream.ending, trace, x.refinalized, x.redacted);
    } else {
      TriedFromStart(x.works, open);
    }
  }

  lemma {:induction false} WholeLog(works: nat -> bool, plan: seq<Write>)
    requires AllWork(works, [], plan)
    ensures LogOf(works, plan) == Kinds(plan)
  {
    WorkingLogs(works, [], plan);
    assert [] + plan == plan && [] + Kinds(plan) == Kinds(plan);
  }

  /** A turn succeeds exactly when all goes well and each of its writes works; its log is what they log. */
  lemma {:induction false} SucceedsExactly(m: Message, x: Circumstances, events: nat, bytes: nat)
    ensures var (r, log) := TurnResult(m, x, events, bytes);
      var plan := SuccessWrites(m, x, events, bytes);
      && (r.Success? <==> GoesWell(x, events, bytes) && forall k: nat | k < |plan| :: x.works(k))
      && (r.Success? ==> r == Success(log) && log == Kinds(plan))
  {
    var open := Opening(m, x, events, bytes);
    ThroughExactly(x.stream.events, events, bytes);
    GetsToClose(m, x, events, bytes);
    ClosesExactly(m, x, Active(x.stream.events), open);
    BothWork(x.works, open, ClosingWrites(Active(x.stream.events), m, true));
    if AllWork(x.works, [], SuccessWrites(m, x, events, bytes)) {
      WholeLog(x.works, SuccessWrites(m, x, events, bytes));
    }
  }

  lemma {:induction false} FirstKinds(later: seq<Write>)
    ensures Kinds(ENTERED + (STARTED + later)) == [Checkpointed, PolicyObserved, TurnStarted] + Kinds(later)
  {
    KindsOne(None);
    KindsOne(Some(Checkpointed));
    KindsOne(Some(PolicyObserved));
    KindsOne(Some(TurnStarted));
    KindsConcat([None], [Some(Checkpointed)]);
    KindsConcat([Some(PolicyObserved)], [Some(TurnStarted)]);
    KindsConcat(STARTED, later);
    KindsConcat(ENTERED, STARTED + later);
  }

  lemma {:induction false} LastKinds(front: seq<Write>)
    ensures Kinds(front + COMPLETED) == Kinds(front) + [Checkpointed, TurnCompleted]
  {
    KindsOne(None);
    KindsOne(Some(Checkpointed));
    KindsOne(Some(TurnCompleted));
    KindsConcat([Some(TurnCompleted)], [None]);
    KindsConcat([Some(Checkpointed)], [Some(TurnCompleted)] + [None]);
    KindsConcat(front, COMPLETED);
  }

  lemma {:induction false} FramedLog(log: seq<Kind>, middle: seq<Kind>)
    requires log == [Checkpointed, PolicyObserved, TurnStarted] + middle + [Checkpointed, TurnCompleted]
    ensures |log| >= 5 && log[..3] == [Checkpointed, PolicyObserved, TurnStarted]
    ensures log[|log| - 2..] == [Checkpointed, TurnCompleted]
  {
  }

  lemma {:induction false} SuccessIsFramed(m: Message, x: Circumstances, events: nat, bytes: nat, log: seq<Kind>)
    requires x.contextCreated && log == Kinds(SuccessWrites(m, x, events, bytes))
    ensures |log| >= 5 && log[..3] == [Checkpointed, PolicyObserved, TurnStarted]
    ensures log[|log| - 2..] == [Checkpointed, TurnCompleted]
  {
    var stream := StreamWrites(PlanFor(m), false, x.stream.events, events, bytes);
    var due := DueWrites(Active(x.stream.events), m);
    Regrouped(ENTERED, STARTED, stream, due, COMPLETED);
    FirstKinds(stream + due);
    LastKinds(ENTERED + (STARTED + (stream + due)));
    FramedLog(log, Kinds(stream + due));
  }

  lemma {:induction false} Regrouped(
    a: seq<Write>, b: seq<Write>, c: seq<Write>, d: seq<Write>, e: seq<Write>)
    ensures (a + (b + c)) + (d + e) == a + (b + (c + d)) + e
  {
  }

  /**
   * A turn that succeeds tells the whole stream, from the first event to the last: its log begins with the state of
   * the workspace, the policy and the start, and ends with the state of the workspace and the completion.
   */
  lemma {:induction false} SuccessTells(m: Message, x: Circumstances, events: nat, bytes: nat)
    requires TurnResult(m, x, events, bytes).0.Success?
    ensures var log := TurnResult(m, x, events, bytes).1;
      && Tells(log, x.stream.events, |x.stream.events|)
      && |log| >= 5 && log[..3] == [Checkpointed, PolicyObserved, TurnStarted]
      && log[|log| - 2..] == [Checkpointed, TurnCompleted]
  {
    TurnTells(m, x, events, bytes);
    SucceedsExactly(m, x, events, bytes);
    ThroughExactly(x.stream.events, events, bytes);
    BothWork(x.works, Opening(m, x, events, bytes), ClosingWrites(Active(x.stream.events), m, true));
    SuccessIsFramed(m, x, events, bytes, TurnResult(m, x, events, bytes).1);
  }

  /**
   * An event that goes over either limit ends the turn: it fails, and the log tells none of the stream from that event
   * on, and all before it if the writes up to it work.
   */
  lemma {:induction false} LimitEndsTurn(m: Message, x: Circumstances, events: nat, bytes: nat, n: nat)
    requires x.contextCreated && n < |x.stream.events|
    requires forall i | 0 <= i < n :: Passes(x.stream.events, i, events, bytes)
    requires n + 1 > events || Bytes(x.stream.events, n + 1) > bytes
    ensures var (r, log) := TurnResult(m, x, events, bytes);
      && r == Failed && |OfProvider(log)| <= n && Tells(log, x.stream.events, |OfProvider(log)|)
      && (AllWork(x.works, [], Opening(m, x, events, bytes)) ==> |OfProvider(log)| == n)
  {
    var es := x.stream.events;
    ComeExactly(es, 0, events, bytes);
    assert !Passes(es, n, events, bytes);
    assert Come(es, 0, events, bytes) == n;
    TurnTells(m, x, events, bytes);
    FailingAnswers(m, x.works, Broken, Tried(x.works, [], Opening(m, x, events, bytes)), x.refinalized, x.redacted);
  }

  // ----- capacity -----

  lemma {:induction false} MessagesConcat(a: seq<Write>, b: seq<Write>)
    ensures UserMessages(Kinds(a + b)) == UserMessages(Kinds(a)) + UserMessages(Kinds(b))
  {
    KindsConcat(a, b);
    CountConcat(Kinds(a), Kinds(b), IsUserMessage);
  }

  lemma {:induction false} SilentKinds(plan: seq<Write>)
    requires Silent(plan)
    ensures UserMessages(Kinds(plan)) == 0
  {
    if plan != [] {
      var last := |plan| - 1;
      SilentKinds(plan[..last]);
      if plan[last].Some? { CountOneMore(Kinds(plan[..last]), plan[last].value, IsUserMessage); }
      assert Kinds(plan[..last]) + [] == Kinds(plan[..last]);
    }
  }

  lemma {:induction false} EventSays(said: bool, m: Message, e: ProviderEvent)
    ensures UserMessages(Kinds(EventWrites(said, m, e))) == if said || e.Bound? then 0 else 1
  {
    SilentKinds(if Acceptable(e) then OwnWrites(e) else []);
    CountOneMore([], UserMessage(m.clientMessageId), IsUserMessage);
    KindsOne(Some(UserMessage(m.clientMessageId)));
    assert [] + [UserMessage(m.clientMessageId)] == [UserMessage(m.clientMessageId)];
    MessagesConcat(if e.Bound? then [] else DueWrites(said, m), if Acceptable(e) then OwnWrites(e) else []);
  }

  /** The writes planned for each event log the message exactly if it is due. */
  ghost predicate SaysOnce(own: EventPlan) {
    forall said, e :: UserMessages(Kinds(own(said, e))) == if said || e.Bound? then 0 else 1
  }

  lemma {:induction false} PlanSays(m: Message)
    ensures SaysOnce(PlanFor(m))
  {
    forall said, e ensures UserMessages(Kinds(PlanFor(m)(said, e))) == if said || e.Bound? then 0 else 1 {
      EventSays(said, m, e);
    }
  }

  /** The first events log the message exactly if one of them is more than a session being bound. */
  lemma {:induction false} FirstSay(own: EventPlan, es: seq<ProviderEvent>, n: nat)
    requires SaysOnce(own) && n <= |es|
    ensures UserMessages(Kinds(FirstWrites(own, false, es, n))) == if SaidBefore(false, es, n) then 1 else 0
  {
    if n > 0 {
      var said := SaidBefore(false, es, n - 1);
      FirstSay(own, es, n - 1);
      MessagesConcat(FirstWrites(own, false, es, n - 1), own(said, es[n - 1]));
    }
  }

  lemma {:induction false} OpeningSays(m: Message, x: Circumstances, events: nat, bytes: nat)
    requires x.contextCreated && Through(x.stream.events, events, bytes)
    ensures UserMessages(Kinds(Opening(m, x, events, bytes))) == if Active(x.stream.events) then 1 else 0
  {
    hide FirstWrites, Come, Kinds, Count;
    var es := x.stream.events;
    PlanSays(m);
    FirstSay(PlanFor(m), es, |es|);
    SilentKinds(ENTERED);
    SilentKinds(STARTED);
    MessagesConcat(STARTED, FirstWrites(PlanFor(m), false, es, |es|));
    MessagesConcat(ENTERED, STARTED + FirstWrites(PlanFor(m), false, es, |es|));
  }

  /**
   * A provider that runs out of capacity is reported by name exactly when the turn comes through what it streamed and
   * each write works, those of the failure included; and it may be retried exactly when it streamed nothing but
   * session bindings.
   */
  lemma {:induction false} CapacityReportedExactly(m: Message, x: Circumstances, events: nat, bytes: nat)
    requires x.contextCreated && Through(x.stream.events, events, bytes) && x.stream.ending.OutOfCapacity?
    requires AllWork(x.works, [], Opening(m, x, events, bytes))
    ensures var r := TurnResult(m, x, events, bytes).0;
      var retrySafe := forall i | 0 <= i < |x.stream.events| :: x.stream.events[i].Bound?;
      var from := Opening(m, x, events, bytes) + if x.refinalized then [Some(Checkpointed)] else [];
      r == if AllWork(x.works, from, FailureWrites(Some(retrySafe), x.redacted))
           then CapacityExhausted(m.provider, retrySafe) else Failed
  {
    var open := Opening(m, x, events, bytes);
    TriedAll(x.works, [], open);
    assert [] + open == open && open + [] == open;
    WholeLog(x.works, open);
    OpeningSays(m, x, events, bytes);
    SaidExactly(false, x.stream.events, |x.stream.events|);
  }

  /** In no other case is capacity reported. */
  lemma {:induction false} CapacityOnlyThen(m: Message, x: Circumstances, events: nat, bytes: nat)
    requires TurnResult(m, x, events, bytes).0.CapacityExhausted?
    ensures x.contextCreated && Through(x.stream.events, events, bytes) && x.stream.ending.OutOfCapacity?
    ensures AllWork(x.works, [], Opening(m, x, events, bytes))
  {
    var open := Opening(m, x, events, bytes);
    FailingAnswers(m, x.works, Broken, Tried(x.works, [], open), x.refinalized, x.redacted);
    FailingAnswers(m, x.works, x.stream.ending, Tried(x.works, [], open), x.refinalized, x.redacted);
    GetsToClose(m, x, events, bytes);
    var said, close := Active(x.stream.events), ClosingWrites(Active(x.stream.events), m, x.finalized);
    var released := x.finalized && (said || x.works(|open|));
    FailingAnswers(m, x.works, Broken, Tried(x.works, open, close), !released && x.refinalized, x.redacted);
  }

  // ----- admission -----

  /** The conversation is one of this provider, which is configured, in scope, up, and under the request's policy. */
  predicate Suits(b: Books, c: string, m: Message, x: Circumstances) {
    && x.configured && c in b.activeProvider && b.activeProvider[c] == m.provider && x.scoped && x.available
    && x.policyRevision == m.policyRevision
  }

  /** Which submissions start a turn, which are answered from the store, and why the others are refused. */
  lemma {:induction false} AdmittedExactly(b: Books, c: string, m: Message, x: Circumstances)
    ensures var answer, key := Admitted(b, c, m, x), (c, m.clientMessageId);
      && (answer == None <==>
            Suits(b, c, m, x) && c !in b.activeTurns && key !in b.responses && !x.exhausted && x.leased)
      && (forall events :: answer == Some(Success(events)) <==>
            Suits(b, c, m, x) && c !in b.activeTurns && key in b.responses && b.responses[key] == (m.hash, events))
      && (answer == Some(KeyReused) <==>
            Suits(b, c, m, x) && c !in b.activeTurns && key in b.responses && b.responses[key].0 != m.hash)
      && (answer == Some(AlreadyActive) <==> Suits(b, c, m, x) && c in b.activeTurns)
      && (answer == Some(HandoffRequired) <==>
            x.configured && c in b.activeProvider && b.activeProvider[c] != m.provider)
      && (forall p, safe :: answer == Some(CapacityExhausted(p, safe)) <==>
            && Suits(b, c, m, x) && c !in b.activeTurns && key !in b.responses && x.exhausted
            && p == m.provider && safe)
      && (answer == Some(WorkspaceUnavailable) <==>
            Suits(b, c, m, x) && c !in b.activeTurns && key !in b.responses && !x.exhausted && !x.leased)
  {
  }
}
