/** The bounded promise queue between a provider and its consumer. */
module AsyncQueue {
  import opened Wrappers

  const MAX_SAFE_INTEGER := 0x1F_FFFF_FFFF_FFFF

  datatype Failure = ItemSize | BufferLimit | Reported(id: nat)

  /** One promise handed out by `next`. */
  datatype Outcome<+T> = Open | Value(value: T) | Done | Rejected(reason: Failure)

  datatype Options<!T> = Options(maxItems: Option<nat>, maxBytes: Option<nat>, sizeOf: T -> int)

  /**
   * `promises` lists every promise in the order of the calls that made it; the open ones are the waiters.
   * `accepted` is history: the pushed values the queue took.
   */
  datatype State<T> = State(
    values: seq<T>, waiting: nat, ended: bool, failure: Option<Failure>, bufferedBytes: int,
    promises: seq<Outcome<T>>, accepted: seq<T>)

  datatype Op<T> = Push(value: T) | End | Fail(reason: Failure) | Next

  // ----- what each operation does -----

  function Sizes<T>(values: seq<T>, sizeOf: T -> int): int {
    if values == [] then 0 else Sizes(values[..|values| - 1], sizeOf) + sizeOf(values[|values| - 1])
  }

  /** Settles the last `waiting` promises alike. */
  function SettleAll<T>(s: State<T>, outcome: Outcome<T>): seq<Outcome<T>>
    requires s.waiting <= |s.promises|
  {
    s.promises[..|s.promises| - s.waiting] + seq(s.waiting, _ => outcome)
  }

  function AfterFail<T>(s: State<T>, reason: Failure): State<T>
    requires s.waiting <= |s.promises|
  {
    if s.ended then s
    else s.(ended := true, failure := Some(reason), values := [], bufferedBytes := 0,
            promises := SettleAll(s, Rejected(reason)), waiting := 0)
  }

  predicate Overflows<T>(s: State<T>, o: Options<T>, value: T) {
    || (o.maxItems.Some? && |s.values| >= o.maxItems.value)
    || (o.maxBytes.Some? && s.bufferedBytes + o.sizeOf(value) > o.maxBytes.value)
  }

  function After<T>(s: State<T>, o: Options<T>, op: Op<T>): State<T>
    requires s.waiting <= |s.promises|
  {
    match op
    case Push(value) =>
      if s.ended then s
      else if s.waiting > 0 then
        s.(promises := s.promises[|s.promises| - s.waiting := Value(value)], waiting := s.waiting - 1,
           accepted := s.accepted + [value])
      else if !(0 <= o.sizeOf(value) <= MAX_SAFE_INTEGER) then AfterFail(s, ItemSize)
      else if Overflows(s, o, value) then AfterFail(s, BufferLimit)
      else s.(values := s.values + [value], bufferedBytes := s.bufferedBytes + o.sizeOf(value),
              accepted := s.accepted + [value])
    case End =>
      if s.ended then s else s.(ended := true, promises := SettleAll(s, Done), waiting := 0)
    case Fail(reason) => AfterFail(s, reason)
    case Next =>
      if s.values != [] then
        s.(values := s.values[1..], bufferedBytes := s.bufferedBytes - o.sizeOf(s.values[0]),
           promises := s.promises + [Value(s.values[0])])
      else if s.failure.Some? then s.(promises := s.promises + [Rejected(s.failure.value)])
      else if s.ended then s.(promises := s.promises + [Done])
      else s.(promises := s.promises + [Open], waiting := s.waiting + 1)
  }

  function Initial<T>(): State<T> { State([], 0, false, None, 0, [], []) }

  // ----- what holds of every queue -----

  /** The values handed out, in the order of the calls. */
  function Delivered<T>(promises: seq<Outcome<T>>): seq<T> {
    if promises == [] then []
    else Delivered(promises[..|promises| - 1]) +
         (if promises[|promises| - 1].Value? then [promises[|promises| - 1].value] else [])
  }

  /** Who waits, and in what order promises are settled. */
  ghost predicate Orderly<T>(s: State<T>) {
    var settled := |s.promises| - s.waiting;
    // values and waiters are never both there, and nobody waits on an ended queue
    && s.waiting <= |s.promises|
    && (s.waiting > 0 ==> s.values == [] && !s.ended)
    && (s.failure.Some? ==> s.ended && s.values == [])
    // the open promises are the newest ones
    && (forall i | 0 <= i < |s.promises| :: s.promises[i].Open? <==> i >= settled)
    // nothing is handed out after the first end or failure
    && (forall i, j | 0 <= i < j < settled :: s.promises[j].Value? ==> s.promises[i].Value?)
    && (!s.ended || s.values != [] ==> forall i | 0 <= i < settled :: s.promises[i].Value?)
  }

  /** No value is lost, repeated or reordered, except that a failure drops what was buffered. */
  ghost predicate Faithful<T>(s: State<T>) {
    && (s.failure.None? ==> Delivered(s.promises) + s.values == s.accepted)
    && Delivered(s.promises) <= s.accepted
  }

  ghost predicate Bounded<T>(s: State<T>, o: Options<T>) {
    && s.bufferedBytes == Sizes(s.values, o.sizeOf)
    && (forall i | 0 <= i < |s.values| :: 0 <= o.sizeOf(s.values[i]) <= MAX_SAFE_INTEGER)
    && (o.maxItems.Some? ==> |s.values| <= o.maxItems.value)
    && (o.maxBytes.Some? ==> s.bufferedBytes <= o.maxBytes.value)
  }

  ghost predicate Sound<T>(s: State<T>, o: Options<T>) {
    Orderly(s) && Faithful(s) && Bounded(s, o)
  }

  // ----- every operation keeps it -----

  lemma {:induction false} DeliveredConcat<T>(a: seq<Outcome<T>>, b: seq<Outcome<T>>)
    ensures Delivered(a + b) == Delivered(a) + Delivered(b)
    decreases |b|
  {
    if b == [] {
      assert a + b == a;
    } else {
      assert (a + b)[..|a + b| - 1] == a + b[..|b| - 1];
      DeliveredConcat(a, b[..|b| - 1]);
    }
  }

  lemma {:induction false} DeliveredNothing<T>(b: seq<Outcome<T>>)
    requires forall i | 0 <= i < |b| :: !b[i].Value?
    ensures Delivered(b) == []
  {
    if b != [] { DeliveredNothing(b[..|b| - 1]); }
  }

  lemma {:induction false} DeliveredOne<T>(a: seq<Outcome<T>>, p: Outcome<T>)
    ensures Delivered(a + [p]) == Delivered(a) + if p.Value? then [p.value] else []
  {
    assert (a + [p])[..|a|] == a;
  }

  lemma {:induction false} SizesConcat<T>(a: seq<T>, b: seq<T>, sizeOf: T -> int)
    ensures Sizes(a + b, sizeOf) == Sizes(a, sizeOf) + Sizes(b, sizeOf)
    decreases |b|
  {
    if b == [] {
      assert a + b == a;
    } else {
      assert (a + b)[..|a + b| - 1] == a + b[..|b| - 1];
      SizesConcat(a, b[..|b| - 1], sizeOf);
    }
  }

  lemma {:induction false} SizesHead<T>(values: seq<T>, sizeOf: T -> int)
    requires values != []
    ensures Sizes(values, sizeOf) == sizeOf(values[0]) + Sizes(values[1..], sizeOf)
  {
    SizesConcat([values[0]], values[1..], sizeOf);
    assert [values[0]] + values[1..] == values;
    assert [values[0]][..0] == [];
  }

  /** Settling the waiters without a value hands out nothing. */
  lemma {:induction false} SettlingDelivers<T>(s: State<T>, outcome: Outcome<T>)
    requires Orderly(s) && !outcome.Value?
    ensures Delivered(SettleAll(s, outcome)) == Delivered(s.promises)
  {
    var cut := |s.promises| - s.waiting;
    var opens := s.promises[cut..];
    assert s.promises == s.promises[..cut] + opens;
    DeliveredConcat(s.promises[..cut], opens);
    DeliveredNothing(opens);
    DeliveredConcat(s.promises[..cut], seq(s.waiting, _ => outcome));
    DeliveredNothing(seq(s.waiting, _ => outcome));
  }

  lemma {:induction false} FailSound<T>(s: State<T>, o: Options<T>, reason: Failure)
    requires Sound(s, o)
    ensures Sound(AfterFail(s, reason), o)
  {
    SettlingDelivers(s, Rejected(reason));
  }

  lemma {:induction false} EndSound<T>(s: State<T>, o: Options<T>)
    requires Sound(s, o)
    ensures Sound(After(s, o, End), o)
  {
    SettlingDelivers(s, Done);
  }

  lemma {:induction false} HandOverDelivers<T>(ps: seq<Outcome<T>>, cut: nat, value: T)
    requires cut < |ps| && forall i | cut <= i < |ps| :: ps[i].Open?
    ensures Delivered(ps[cut := Value(value)]) == Delivered(ps) + [value]
  {
    var front, opens := ps[..cut], ps[cut + 1..];
    DeliveredNothing(opens);
    assert ps == (front + [Open]) + opens;
    DeliveredConcat(front + [Open], opens);
    DeliveredOne(front, Open);
    assert ps[cut := Value(value)] == (front + [Value(value)]) + opens;
    DeliveredConcat(front + [Value(value)], opens);
    DeliveredOne(front, Value(value));
  }

  lemma {:induction false} HandOverSound<T>(s: State<T>, o: Options<T>, value: T)
    requires Sound(s, o) && !s.ended && s.waiting > 0
    ensures Sound(After(s, o, Push(value)), o)
  {
    HandOverDelivers(s.promises, |s.promises| - s.waiting, value);
    var t := After(s, o, Push(value));
    assert s.values == [] && Delivered(s.promises) + [] == Delivered(s.promises);
    assert Delivered(t.promises) + [] == Delivered(t.promises);
    assert Faithful(t);
  }

  lemma {:induction false} BufferSound<T>(s: State<T>, o: Options<T>, value: T)
    requires Sound(s, o) && !s.ended && s.waiting == 0
    requires 0 <= o.sizeOf(value) <= MAX_SAFE_INTEGER && !Overflows(s, o, value)
    ensures Sound(After(s, o, Push(value)), o)
  {
    assert (s.values + [value])[..|s.values|] == s.values;
    assert Delivered(s.promises) + (s.values + [value]) == (Delivered(s.promises) + s.values) + [value];
  }

  lemma {:induction false} TakeBounded<T>(s: State<T>, o: Options<T>, t: State<T>)
    requires Bounded(s, o) && s.values != [] && t.values == s.values[1..]
    requires t.bufferedBytes == s.bufferedBytes - o.sizeOf(s.values[0])
    ensures Bounded(t, o)
  {
    SizesHead(s.values, o.sizeOf);
  }

  lemma {:induction false} TakeFaithful<T>(s: State<T>, t: State<T>)
    requires Faithful(s) && s.failure.None? && s.values != [] && t.values == s.values[1..]
    requires t.promises == s.promises + [Value(s.values[0])] && t.accepted == s.accepted && t.failure == s.failure
    ensures Faithful(t)
  {
    var value := s.values[0];
    DeliveredOne(s.promises, Value(value));
    assert s.values == [value] + s.values[1..];
    assert (Delivered(s.promises) + [value]) + s.values[1..] == Delivered(s.promises) + s.values;
  }

  lemma {:induction false} TakeOrderly<T>(s: State<T>, t: State<T>)
    requires Orderly(s) && s.values != [] && t.promises == s.promises + [Value(s.values[0])]
    requires t.waiting == s.waiting && t.ended == s.ended && t.failure == s.failure
    ensures Orderly(t)
  {
  }

  lemma {:induction false} TakeSound<T>(s: State<T>, o: Options<T>)
    requires Sound(s, o) && s.values != []
    ensures Sound(After(s, o, Next), o)
  {
    var t := After(s, o, Next);
    TakeBounded(s, o, t);
    TakeFaithful(s, t);
    TakeOrderly(s, t);
  }

  lemma {:induction false} WaitSound<T>(s: State<T>, o: Options<T>)
    requires Sound(s, o) && s.values == []
    ensures Sound(After(s, o, Next), o)
  {
    var p: Outcome<T> := if s.failure.Some? then Rejected(s.failure.value) else if s.ended then Done else Open;
    DeliveredOne(s.promises, p);
    assert Orderly(After(s, o, Next));
  }

  lemma {:induction false} AfterSound<T>(s: State<T>, o: Options<T>, op: Op<T>)
    requires Sound(s, o)
    ensures Sound(After(s, o, op), o)
  {
    match op
    case Push(value) =>
      if s.ended {
      } else if s.waiting > 0 {
        HandOverSound(s, o, value);
      } else if !(0 <= o.sizeOf(value) <= MAX_SAFE_INTEGER) {
        FailSound(s, o, ItemSize);
      } else if Overflows(s, o, value) {
        FailSound(s, o, BufferLimit);
      } else {
        BufferSound(s, o, value);
      }
    case End => EndSound(s, o);
    case Fail(reason) => FailSound(s, o, reason);
    case Next => if s.values != [] { TakeSound(s, o); } else { WaitSound(s, o); }
  }

  /** Any sequence of operations on a new queue. */
  ghost function Run<T>(o: Options<T>, ops: seq<Op<T>>): (s: State<T>)
    ensures Sound(s, o)
  {
    if ops == [] then Initial()
    else
      var t := Run(o, ops[..|ops| - 1]);
      AfterSound(t, o, ops[|ops| - 1]);
      After(t, o, ops[|ops| - 1])
  }

  function Pushed<T>(ops: seq<Op<T>>): seq<T> {
    if ops == [] then []
    else Pushed(ops[..|ops| - 1]) + (if ops[|ops| - 1].Push? then [ops[|ops| - 1].value] else [])
  }

  lemma {:induction false} AcceptStep<T>(s: State<T>, o: Options<T>, op: Op<T>, t: State<T>)
    requires s.waiting <= |s.promises| && t == After(s, o, op)
    ensures t.accepted == s.accepted || (op.Push? && !s.ended && t.accepted == s.accepted + [op.value])
    ensures s.ended ==> t.ended
    ensures !t.ended && op.Push? ==> t.accepted == s.accepted + [op.value]
  {
  }

  /** What is accepted is a prefix of what is pushed: all of it as long as the queue has not ended. */
  lemma {:induction false} AcceptedArePushed<T>(o: Options<T>, ops: seq<Op<T>>)
    ensures Run(o, ops).accepted <= Pushed(ops)
    ensures !Run(o, ops).ended ==> Run(o, ops).accepted == Pushed(ops)
  {
    if ops != [] {
      AcceptedArePushed(o, ops[..|ops| - 1]);
      AcceptStep(Run(o, ops[..|ops| - 1]), o, ops[|ops| - 1], Run(o, ops));
    }
  }

  /**
   * In every run the consumer sees, call by call, a prefix of what was pushed; buffered values and open promises are
   * never both there; an ended queue leaves no promise open.
   */
  lemma {:induction false} EveryRunIsFaithful<T>(o: Options<T>, ops: seq<Op<T>>)
    ensures var s := Run(o, ops);
            && Delivered(s.promises) <= Pushed(ops)
            && (!s.ended ==> Delivered(s.promises) + s.values == Pushed(ops))
            && (s.values == [] || forall i | 0 <= i < |s.promises| :: !s.promises[i].Open?)
            && (s.ended ==> forall i | 0 <= i < |s.promises| :: !s.promises[i].Open?)
  {
    AcceptedArePushed(o, ops);
    var s := Run(o, ops);
    assert Delivered(s.promises) <= s.accepted <= Pushed(ops);
  }

  // ----- how promises are settled -----

  /** Whether a pushed value finds no waiter and may not be buffered. */
  ghost predicate Unbuffered<T>(s: State<T>, o: Options<T>, value: T) {
    && !s.ended && s.waiting == 0
    && (!(0 <= o.sizeOf(value) <= 9_007_199_254_740_991)
        || (o.maxItems.Some? && |s.values| + 1 > o.maxItems.value)
        || (o.maxBytes.Some? && Sizes(s.values, o.sizeOf) + o.sizeOf(value) > o.maxBytes.value))
  }

  /**
   * Only `next` makes a promise, and one at a time; a settled promise stays as it is. The queue ends with the first
   * `end`, `fail` or push that may not be buffered, and the reason of a failure is that of the first.
   */
  lemma {:induction false} StepExactly<T>(s: State<T>, o: Options<T>, op: Op<T>)
    requires Sound(s, o)
    ensures var t := After(s, o, op);
            && |t.promises| == |s.promises| + (if op.Next? then 1 else 0)
            && (forall i | 0 <= i < |s.promises| :: !s.promises[i].Open? ==> t.promises[i] == s.promises[i])
            && (t.ended <==> s.ended || op.End? || op.Fail? || (op.Push? && Unbuffered(s, o, op.value)))
            && (forall reason :: t.failure == Some(reason) <==>
                  || s.failure == Some(reason)
                  || (!s.ended && op == Fail(reason))
                  || (op.Push? && Unbuffered(s, o, op.value)
                      && reason == if 0 <= o.sizeOf(op.value) <= 9_007_199_254_740_991 then BufferLimit else ItemSize))
  {
  }

  /**
   * A promise without a value waits for as long as the queue has not ended; then it is done, or rejected with the
   * reason of the failure if there was one.
   */
  ghost predicate Settled<T>(s: State<T>) {
    forall i | 0 <= i < |s.promises| :: !s.promises[i].Value? ==>
      s.promises[i] == if s.failure.Some? then Rejected(s.failure.value) else if s.ended then Done else Open
  }

  lemma {:induction false} StepSettles<T>(s: State<T>, o: Options<T>, op: Op<T>)
    requires Sound(s, o) && Settled(s)
    ensures Settled(After(s, o, op))
  {
    var t := After(s, o, op);
    forall i | 0 <= i < |t.promises| && !t.promises[i].Value?
      ensures t.promises[i] == if t.failure.Some? then Rejected(t.failure.value) else if t.ended then Done else Open
    {
      if i < |s.promises| && !s.promises[i].Value? {
        assert s.promises[i].Open? <==> i >= |s.promises| - s.waiting;
      }
    }
  }

  /** So it is in every run, for the promises made before the end and for those made after it. */
  lemma {:induction false} EveryRunSettles<T>(o: Options<T>, ops: seq<Op<T>>)
    ensures Settled(Run(o, ops))
  {
    if ops != [] {
      EveryRunSettles(o, ops[..|ops| - 1]);
      StepSettles(Run(o, ops[..|ops| - 1]), o, ops[|ops| - 1]);
    }
  }

  // ----- the queue itself -----

  class AsyncQueue<T> {
    const options: Options<T>
    var values: seq<T>
    var waiters: seq<nat>            // indexes of open promises, oldest first
    var ended: bool
    var failure: Option<Failure>
    var bufferedBytes: int
    var promises: seq<Outcome<T>>
    ghost var accepted: seq<T>

    /** The waiters are the newest promises, in order. */
    ghost predicate Linked()
      reads this
    {
      && |waiters| <= |promises|
      && forall i | 0 <= i < |waiters| :: waiters[i] == |promises| - |waiters| + i
    }

    ghost predicate Valid()
      reads this
    {
      Linked() && Sound(View(), options)
    }

    ghost function View(): State<T>
      reads this
    {
      State(values, |waiters|, ended, failure, bufferedBytes, promises, accepted)
    }

    constructor (options: Options<T>)
      ensures Valid() && View() == Initial() && this.options == options
    {
      this.options := options;
      values, waiters, ended, failure, bufferedBytes, promises, accepted := [], [], false, None, 0, [], [];
    }

    /** Resolves or rejects every waiter with the same outcome. */
    method Settle(outcome: Outcome<T>)
      requires |waiters| <= |promises|
      requires forall i | 0 <= i < |waiters| :: waiters[i] == |promises| - |waiters| + i
      modifies this`waiters, this`promises
      ensures waiters == [] && promises == old(SettleAll(View(), outcome))
    {
      ghost var first := |promises| - |waiters|;
      var i := 0;
      while i < |waiters|
        invariant i <= |waiters| && |promises| == old(|promises|)
        invariant waiters == old(waiters)
        invariant forall j | 0 <= j < |promises| :: promises[j] == if first <= j < first + i then outcome
          else old(promises)[j]
      {
        promises := promises[waiters[i] := outcome];
        i := i + 1;
      }
      waiters := [];
    }

    method Put(value: T)
      requires Linked()
      modifies this
      ensures Linked() && View() == old(After(View(), options, Push(value)))
    {
      if ended {
        return;
      }
      if waiters != [] {
        var waiter := waiters[0];
        waiters := waiters[1..];
        promises := promises[waiter := Value(value)];
        accepted := accepted + [value];
        return;
      }
      var valueBytes := options.sizeOf(value);
      if valueBytes > MAX_SAFE_INTEGER || valueBytes < 0 {
        Break(ItemSize);
        return;
      }
      if (options.maxItems.Some? && |values| >= options.maxItems.value)
         || (options.maxBytes.Some? && bufferedBytes + valueBytes > options.maxBytes.value)
      {
        Break(BufferLimit);
        return;
      }
      values := values + [value];
      bufferedBytes := bufferedBytes + valueBytes;
      accepted := accepted + [value];
    }

    method Finish()
      requires Linked()
      modifies this
      ensures Linked() && View() == old(After(View(), options, End))
    {
      if ended {
        return;
      }
      ended := true;
      Settle(Done);
    }

    method Break(reason: Failure)
      requires Linked()
      modifies this
      ensures Linked() && View() == old(AfterFail(View(), reason))
    {
      if ended {
        return;
      }
      ended := true;
      failure := Some(reason);
      values := [];
      bufferedBytes := 0;
      Settle(Rejected(reason));
    }

    method Take() returns (promise: nat)
      requires Linked() && (waiters != [] ==> values == [] && failure.None? && !ended)
      modifies this
      ensures Linked() && View() == old(After(View(), options, Next))
      ensures promise == old(|promises|)
    {
      promise := |promises|;
      if values != [] {
        var value := values[0];
        values := values[1..];
        bufferedBytes := bufferedBytes - options.sizeOf(value);
        promises := promises + [Value(value)];
      } else if failure.Some? {
        promises := promises + [Rejected(failure.value)];
      } else if ended {
        promises := promises + [Done];
      } else {
        waiters := waiters + [|promises|];
        promises := promises + [Open];
      }
    }

    // ----- the operations -----

    method PushValue(value: T)
      requires Valid()
      modifies this
      ensures Valid() && View() == old(After(View(), options, Push(value)))
    {
      AfterSound(View(), options, Push(value));
      Put(value);
    }

    method EndQueue()
      requires Valid()
      modifies this
      ensures Valid() && View() == old(After(View(), options, End))
    {
      AfterSound(View(), options, End);
      Finish();
    }

    method FailWith(reason: Failure)
      requires Valid()
      modifies this
      ensures Valid() && View() == old(AfterFail(View(), reason))
    {
      FailSound(View(), options, reason);
      Break(reason);
    }

    /** Returns the index of the promise it hands out. */
    method TakeNext() returns (promise: nat)
      requires Valid()
      modifies this
      ensures Valid() && View() == old(After(View(), options, Next))
      ensures promise == old(|promises|)
    {
      AfterSound(View(), options, Next);
      promise := Take();
    }
  }
}
