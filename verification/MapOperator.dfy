/**
 The concurrent `map` operator of Readable: a pump that calls fn for every chunk and queues
 the results, and a generator that yields them in order. The two wake each other through
 the hand-rolled resolvers `next` and `resume`. What runs between two awaits is one step.
 */
module MapOperator {

  /** What becomes of one call of fn. A throw counts as a rejection, as in the code. */
  datatype Fate<+V> =
    | Nothing                  // returns kEmpty itself: never queued
    | Plain(v: V)
    | Resolves(v: V)
    | ResolvesToNothing        // a promise for kEmpty
    | Rejects

  datatype Item<+V> =
    | Result(fate: Fate<V>, settled: bool)
    | Eof
    | Failure                  // the stream failed, or the pump saw the abort

  datatype Pump =
    | Reading                  // waiting for the next chunk
    | Parked                   // waiting for resume
    | Woken                    // resume was called, not yet running
    | Finished

  datatype Ending = AtEof | Threw | Stopped

  datatype Consumer =
    | Looping                  // at the head of the loop
    | Awaiting                 // on queue[0]
    | Yielded                  // suspended at the yield of queue[0]
    | Waiting                  // on next
    | Called                   // next was called, not yet running
    | Returned(ending: Ending)

  /** The closure's variables and the two program counters; `calls` and `yielded` are history. */
  datatype State<+V> = State(
    pump: Pump, consumer: Consumer, queue: seq<Item<V>>,
    next: bool, resume: bool, done: bool, aborted: bool,
    calls: seq<Fate<V>>, yielded: seq<V>)

  function Initial<V>(): State<V> {
    State(Reading, Looping, [], false, false, false, false, [], [])
  }

  // ----- what the pump does

  /** if (next) { next(); next = null } */
  function CallNext<V>(s: State<V>): State<V> {
    if s.next then s.(next := false, consumer := Called) else s
  }

  function CallResume<V>(s: State<V>): State<V> {
    if s.resume then s.(resume := false, pump := Woken) else s
  }

  /** The finally block of the pump. */
  function PumpFinally<V>(s: State<V>): State<V> {
    CallNext(s.(done := true, pump := Finished))
  }

  /** A chunk arrives. */
  function OnChunk<V>(s: State<V>, fate: Fate<V>, concurrency: nat): State<V> {
    if s.done then PumpFinally(s)
    else if s.aborted then PumpFinally(s.(queue := s.queue + [Failure]))
    else if fate.Nothing? then s.(calls := s.calls + [fate])
    else
      var t := CallNext(s.(calls := s.calls + [fate], queue := s.queue + [Result(fate, fate.Plain?)]));
      if |t.queue| >= concurrency then t.(resume := true, pump := Parked) else t
  }

  function OnEnd<V>(s: State<V>): State<V> {
    PumpFinally(s.(queue := s.queue + [Eof]))
  }

  function OnStreamError<V>(s: State<V>): State<V> {
    PumpFinally(s.(queue := s.queue + [Failure]))
  }

  // ----- what the consumer does

  /** The finally block of the generator. */
  function ConsumerFinally<V>(s: State<V>, ending: Ending): State<V> {
    CallResume(s.(aborted := true, done := true, consumer := Returned(ending)))
  }

  function OnLoop<V>(s: State<V>): State<V> {
    if |s.queue| > 0 then s.(consumer := Awaiting) else s.(next := true, consumer := Waiting)
  }

  /** queue.shift() and the wake-up of the pump, back to the head of the loop. */
  function Shift<V>(s: State<V>): State<V>
    requires |s.queue| > 0
  {
    CallResume(s.(queue := s.queue[1..], consumer := Looping))
  }

  predicate Ready<V>(item: Item<V>) {
    item.Result? ==> item.settled
  }

  /** queue[0] has settled. */
  function OnHead<V>(s: State<V>): State<V>
    requires |s.queue| > 0
  {
    match s.queue[0]
    case Eof => ConsumerFinally(s, AtEof)
    case Failure => ConsumerFinally(s, Threw)
    case Result(fate, _) =>
      if fate.Rejects? then ConsumerFinally(s, Threw)
      else if s.aborted then ConsumerFinally(s, Threw)
      else if fate.Plain? || fate.Resolves? then s.(consumer := Yielded, yielded := s.yielded + [fate.v])
      else Shift(s)
  }

  // ----- one step of the whole

  datatype Action<+V> =
    | Chunk(fate: Fate<V>) | End | StreamError | PumpRuns
    | Loop | Head | Demand | Stop | ConsumerRuns
    | Settle(index: nat)       // the promise at that place in the queue settles
    | RejectionSeen            // the catch handler of a rejected result runs onDone
    | Abort

  predicate Enabled<V>(s: State<V>, a: Action<V>) {
    match a
    case Chunk(_) => s.pump == Reading
    case End => s.pump == Reading
    case StreamError => s.pump == Reading
    case PumpRuns => s.pump == Woken
    case Loop => s.consumer == Looping
    case Head => s.consumer == Awaiting && |s.queue| > 0 && Ready(s.queue[0])
    case Demand => s.consumer == Yielded && |s.queue| > 0
    case Stop => s.consumer == Yielded
    case ConsumerRuns => s.consumer == Called
    case Settle(i) => i < |s.queue| && s.queue[i].Result?
    case RejectionSeen => HasRejection(s.queue)
    case Abort => true
  }

  /** Some result in the queue is a rejected promise. */
  predicate HasRejection<V>(queue: seq<Item<V>>) {
    exists i :: 0 <= i < |queue| && IsRejection(queue[i])
  }

  predicate IsRejection<V>(item: Item<V>) {
    item.Result? && item.fate.Rejects? && item.settled
  }

  function Apply<V>(s: State<V>, a: Action<V>, concurrency: nat): State<V>
    requires Enabled(s, a)
  {
    match a
    case Chunk(fate) => OnChunk(s, fate, concurrency)
    case End => OnEnd(s)
    case StreamError => OnStreamError(s)
    case PumpRuns => s.(pump := Reading)
    case Loop => OnLoop(s)
    case Head => OnHead(s)
    case Demand => Shift(s)
    case Stop => ConsumerFinally(s, Stopped)
    case ConsumerRuns => s.(consumer := Looping)
    case Settle(i) => s.(queue := s.queue[i := s.queue[i].(settled := true)])
    case RejectionSeen => s.(done := true)
    case Abort => s.(aborted := true)
  }

  // ----- what has been called, queued and yielded

  /** The calls whose results are queued: all but those that returned kEmpty at once. */
  function Pushed<V>(calls: seq<Fate<V>>): seq<Fate<V>> {
    if calls == [] then []
    else
      var n := |calls| - 1;
      Pushed(calls[..n]) + if calls[n].Nothing? then [] else [calls[n]]
  }

  /** What a consumer should see of some results: the values, with kEmpty dropped. */
  function Values<V>(fates: seq<Fate<V>>): seq<V> {
    if fates == [] then []
    else
      var n := |fates| - 1;
      Values(fates[..n]) + if fates[n].Plain? || fates[n].Resolves? then [fates[n].v] else []
  }

  /** Calls that all return a value, at once or by a promise, give exactly these values. */
  lemma {:induction false} ValuesOfAll<V>(fates: seq<Fate<V>>)
    requires forall i :: 0 <= i < |fates| ==> fates[i].Plain? || fates[i].Resolves?
    ensures |Values(fates)| == |fates| && forall i :: 0 <= i < |fates| ==> Values(fates)[i] == fates[i].v
  {
    if fates != [] { ValuesOfAll(fates[..|fates| - 1]); }
  }

  /** kEmpty leaves no trace. */
  lemma {:induction false} ValuesSkip<V>(before: seq<Fate<V>>, fate: Fate<V>, after: seq<Fate<V>>)
    requires fate.Nothing? || fate.ResolvesToNothing?
    ensures Values(before + [fate] + after) == Values(before + after)
  {
    var all := before + [fate] + after;
    if after == [] {
      assert all[..|all| - 1] == before && before + after == before;
    } else {
      var n := |after| - 1;
      ValuesSkip(before, fate, after[..n]);
      assert all[..|all| - 1] == before + [fate] + after[..n];
      assert (before + after)[..|before + after| - 1] == before + after[..n];
    }
  }

  /** How many results the queue holds; an end marker can only be the last item. */
  function ResultCount<V>(queue: seq<Item<V>>): nat {
    if |queue| > 0 && !queue[|queue| - 1].Result? then |queue| - 1 else |queue|
  }

  predicate ResultsFirst<V>(queue: seq<Item<V>>) {
    forall i :: 0 <= i < ResultCount(queue) ==> queue[i].Result?
  }

  /** The place in the sequence of pushed results that queue[0] has. */
  function HeadPlace<V>(queue: seq<Item<V>>, calls: seq<Fate<V>>): int {
    |Pushed(calls)| - ResultCount(queue)
  }

  /** The head has been yielded but not yet shifted. */
  predicate HeadTaken<V>(s: State<V>) {
    s.consumer == Yielded || s.consumer == Returned(Stopped)
  }

  /** The queue holds exactly the results not yet shifted, in call order; those before it, and a taken head, were yielded. */
  ghost predicate Order<V>(queue: seq<Item<V>>, calls: seq<Fate<V>>, yielded: seq<V>, taken: bool) {
    var k := HeadPlace(queue, calls);
    && ResultsFirst(queue)
    && 0 <= k
    && (taken ==> ResultCount(queue) > 0)
    && (forall i :: 0 <= i < ResultCount(queue) ==> queue[i].fate == Pushed(calls)[k + i])
    && (forall i :: 0 <= i < k ==> !Pushed(calls)[i].Rejects?)
    && yielded == Values(Pushed(calls)[..if taken then k + 1 else k])
  }

  ghost predicate InOrder<V>(s: State<V>) {
    Order(s.queue, s.calls, s.yielded, HeadTaken(s))
  }

  /** The two resolvers are set exactly while their owners wait, and never both. */
  ghost predicate WakeUps<V>(s: State<V>, concurrency: nat) {
    && (s.next <==> s.consumer == Waiting)
    && (s.next ==> s.queue == [])
    && (s.resume <==> s.pump == Parked)
    && (s.resume ==> |s.queue| >= concurrency && !s.consumer.Returned?)
    && (s.consumer == Awaiting || s.consumer == Yielded ==> s.queue != [])
    && (s.consumer == Yielded ==> s.queue[0].Result? && (s.queue[0].fate.Plain? || s.queue[0].fate.Resolves?))
  }

  /** Never more than `concurrency` results queued, and room for one more while the pump may add one. */
  ghost predicate Bounded<V>(s: State<V>, concurrency: nat) {
    && ResultCount(s.queue) <= concurrency
    && (s.pump == Reading || s.pump == Woken ==> ResultCount(s.queue) < concurrency || s.consumer.Returned?)
  }

  /** As long as the consumer runs, what will end it is still in the queue once the pump has stopped calling fn. */
  ghost predicate EndInSight<V>(s: State<V>) {
    && (s.pump != Finished ==> ResultCount(s.queue) == |s.queue|)
    && (s.consumer.Returned? ==> s.done && s.aborted)
    && (s.done && !s.consumer.Returned? ==> HasRejection(s.queue) || (s.pump == Finished && ResultCount(s.queue) < |s.queue|))
    && (s.pump == Finished ==> s.done)
    && (s.consumer == Returned(AtEof) ==> s.pump == Finished && s.queue == [Eof])
  }

  ghost predicate Inv<V>(s: State<V>, concurrency: nat) {
    InOrder(s) && WakeUps(s, concurrency) && Bounded(s, concurrency) && EndInSight(s)
  }

  lemma InitialInv<V>(concurrency: nat)
    requires concurrency >= 1
    ensures Inv(Initial<V>(), concurrency)
  {}

  lemma StepWakeUps<V>(s: State<V>, a: Action<V>, concurrency: nat)
    requires concurrency >= 1 && WakeUps(s, concurrency) && EndInSight(s) && Enabled(s, a)
    ensures WakeUps(Apply(s, a, concurrency), concurrency)
  {}

  lemma StepBounded<V>(s: State<V>, a: Action<V>, concurrency: nat)
    requires concurrency >= 1 && WakeUps(s, concurrency) && EndInSight(s) && Bounded(s, concurrency) && Enabled(s, a)
    ensures Bounded(Apply(s, a, concurrency), concurrency)
  {}

  lemma RejectionAppend<V>(queue: seq<Item<V>>, item: Item<V>)
    requires HasRejection(queue)
    ensures HasRejection(queue + [item])
  {
    var k :| 0 <= k < |queue| && IsRejection(queue[k]);
    assert IsRejection((queue + [item])[k]);
  }

  lemma RejectionShift<V>(queue: seq<Item<V>>)
    requires HasRejection(queue) && !IsRejection(queue[0])
    ensures HasRejection(queue[1..])
  {
    var k :| 0 <= k < |queue| && IsRejection(queue[k]);
    assert IsRejection(queue[1..][k - 1]);
  }

  lemma RejectionSettle<V>(queue: seq<Item<V>>, i: nat)
    requires HasRejection(queue) && i < |queue| && queue[i].Result?
    ensures HasRejection(queue[i := queue[i].(settled := true)])
  {
    var k :| 0 <= k < |queue| && IsRejection(queue[k]);
    assert IsRejection(queue[i := queue[i].(settled := true)][k]);
  }

  lemma CountAfterShift<V>(queue: seq<Item<V>>)
    requires |queue| > 0 && queue[0].Result?
    ensures ResultCount(queue[1..]) == ResultCount(queue) - 1
  {}

  lemma ChunkEndInSight<V>(s: State<V>, fate: Fate<V>, concurrency: nat)
    requires concurrency >= 1 && WakeUps(s, concurrency) && EndInSight(s) && s.pump == Reading
    ensures EndInSight(OnChunk(s, fate, concurrency))
  {
    if HasRejection(s.queue) {
      RejectionAppend(s.queue, Failure);
      RejectionAppend(s.queue, Result(fate, fate.Plain?));
    }
  }

  lemma ShiftEndInSight<V>(s: State<V>)
    requires EndInSight(s) && |s.queue| > 0 && s.queue[0].Result? && !s.queue[0].fate.Rejects? && !s.consumer.Returned?
    requires s.resume ==> s.pump == Parked
    ensures EndInSight(Shift(s))
  {
    CountAfterShift(s.queue);
    if HasRejection(s.queue) { RejectionShift(s.queue); }
    assert Shift(s).queue == s.queue[1..];
  }

  lemma StepEndInSight<V>(s: State<V>, a: Action<V>, concurrency: nat)
    requires concurrency >= 1 && WakeUps(s, concurrency) && EndInSight(s) && ResultsFirst(s.queue) && Enabled(s, a)
    ensures EndInSight(Apply(s, a, concurrency))
  {
    match a
    case Chunk(fate) => ChunkEndInSight(s, fate, concurrency);
    case Demand => ShiftEndInSight(s);
    case Head =>
      var head := s.queue[0];
      if head.Result? && !head.fate.Rejects? { ShiftEndInSight(s); }
    case Settle(i) =>
      if HasRejection(s.queue) { RejectionSettle(s.queue, i); }
    case _ =>
      if HasRejection(s.queue) { RejectionAppend(s.queue, Eof); RejectionAppend(s.queue, Failure); }
  }

  // ----- order

  lemma PushedOne<V>(calls: seq<Fate<V>>, f: Fate<V>)
    ensures Pushed(calls + [f]) == Pushed(calls) + if f.Nothing? then [] else [f]
  {
    assert (calls + [f])[..|calls|] == calls;
  }

  lemma ValuesOne<V>(fates: seq<Fate<V>>, k: nat)
    requires k < |fates|
    ensures Values(fates[..k + 1]) == Values(fates[..k]) + if fates[k].Plain? || fates[k].Resolves? then [fates[k].v] else []
  {
    assert fates[..k + 1][..k] == fates[..k];
  }

  lemma MarkerOrder<V>(queue: seq<Item<V>>, calls: seq<Fate<V>>, yielded: seq<V>, taken: bool, marker: Item<V>)
    requires Order(queue, calls, yielded, taken) && ResultCount(queue) == |queue| && !marker.Result?
    ensures Order(queue + [marker], calls, yielded, taken)
  {}

  lemma SettleOrder<V>(queue: seq<Item<V>>, calls: seq<Fate<V>>, yielded: seq<V>, taken: bool, i: nat)
    requires Order(queue, calls, yielded, taken) && i < |queue| && queue[i].Result?
    ensures Order(queue[i := queue[i].(settled := true)], calls, yielded, taken)
  {
    var q := queue[i := queue[i].(settled := true)];
    assert ResultCount(q) == ResultCount(queue);
  }

  lemma SkipOrder<V>(queue: seq<Item<V>>, calls: seq<Fate<V>>, yielded: seq<V>, taken: bool)
    requires Order(queue, calls, yielded, taken)
    ensures Order(queue, calls + [Nothing], yielded, taken)
  {
    PushedOne(calls, Nothing);
    assert Pushed(calls + [Nothing]) == Pushed(calls);
  }

  lemma PushOrder<V>(queue: seq<Item<V>>, calls: seq<Fate<V>>, yielded: seq<V>, taken: bool, item: Item<V>)
    requires Order(queue, calls, yielded, taken) && ResultCount(queue) == |queue| && item.Result? && !item.fate.Nothing?
    ensures Order(queue + [item], calls + [item.fate], yielded, taken)
  {
    PushedOne(calls, item.fate);
    var p, q := Pushed(calls), Pushed(calls + [item.fate]);
    var k := HeadPlace(queue, calls);
    assert q == p + [item.fate] && HeadPlace(queue + [item], calls + [item.fate]) == k;
    var n := if taken then k + 1 else k;
    assert q[..n] == p[..n];
  }

  lemma ShiftOrder<V>(queue: seq<Item<V>>, calls: seq<Fate<V>>, yielded: seq<V>, taken: bool)
    requires Order(queue, calls, yielded, taken) && |queue| > 0 && queue[0].Result? && !queue[0].fate.Rejects?
    requires taken || !(queue[0].fate.Plain? || queue[0].fate.Resolves?)
    ensures Order(queue[1..], calls, yielded, false)
  {
    CountAfterShift(queue);
    var p, k := Pushed(calls), HeadPlace(queue, calls);
    assert p[k] == queue[0].fate && HeadPlace(queue[1..], calls) == k + 1;
    ValuesOne(p, k);
    forall i | 0 <= i < ResultCount(queue[1..])
      ensures queue[1..][i].Result? && queue[1..][i].fate == p[k + 1 + i]
    {
      assert queue[1..][i] == queue[i + 1];
    }
  }

  lemma YieldOrder<V>(queue: seq<Item<V>>, calls: seq<Fate<V>>, yielded: seq<V>)
    requires Order(queue, calls, yielded, false) && |queue| > 0 && queue[0].Result?
    requires queue[0].fate.Plain? || queue[0].fate.Resolves?
    ensures Order(queue, calls, yielded + [queue[0].fate.v], true)
  {
    var p, k := Pushed(calls), HeadPlace(queue, calls);
    assert p[k] == queue[0].fate;
    ValuesOne(p, k);
  }

  lemma CallNextOrder<V>(s: State<V>)
    requires InOrder(s) && (s.next ==> s.consumer == Waiting)
    ensures InOrder(CallNext(s)) && InOrder(PumpFinally(s))
  {}

  lemma ChunkInOrder<V>(s: State<V>, fate: Fate<V>, concurrency: nat)
    requires InOrder(s) && ResultCount(s.queue) == |s.queue| && (s.next ==> s.consumer == Waiting)
    ensures InOrder(OnChunk(s, fate, concurrency))
  {
    if s.done {
      CallNextOrder(s);
    } else if s.aborted {
      MarkerOrder(s.queue, s.calls, s.yielded, HeadTaken(s), Failure);
      CallNextOrder(s.(queue := s.queue + [Failure]));
    } else if fate.Nothing? {
      SkipOrder(s.queue, s.calls, s.yielded, HeadTaken(s));
    } else {
      var item := Result(fate, fate.Plain?);
      PushOrder(s.queue, s.calls, s.yielded, HeadTaken(s), item);
      CallNextOrder(s.(calls := s.calls + [fate], queue := s.queue + [item]));
    }
  }

  lemma FinishInOrder<V>(s: State<V>, ending: Ending)
    requires InOrder(s) && (ending == Stopped <==> s.consumer == Yielded) && !s.consumer.Returned?
    ensures InOrder(ConsumerFinally(s, ending))
  {}

  lemma YieldInOrder<V>(s: State<V>)
    requires InOrder(s) && s.consumer == Awaiting && |s.queue| > 0 && s.queue[0].Result?
    requires s.queue[0].fate.Plain? || s.queue[0].fate.Resolves?
    ensures InOrder(s.(consumer := Yielded, yielded := s.yielded + [s.queue[0].fate.v]))
  {
    YieldOrder(s.queue, s.calls, s.yielded);
  }

  lemma ShiftInOrder<V>(s: State<V>)
    requires InOrder(s) && |s.queue| > 0 && s.queue[0].Result? && !s.queue[0].fate.Rejects?
    requires HeadTaken(s) || !(s.queue[0].fate.Plain? || s.queue[0].fate.Resolves?)
    ensures InOrder(Shift(s))
  {
    ShiftOrder(s.queue, s.calls, s.yielded, HeadTaken(s));
  }

  lemma HeadInOrder<V>(s: State<V>)
    requires InOrder(s) && Enabled(s, Head)
    ensures InOrder(OnHead(s))
  {
    var head := s.queue[0];
    if head.Eof? {
      FinishInOrder(s, AtEof);
    } else if head.Failure? || head.fate.Rejects? || s.aborted {
      FinishInOrder(s, Threw);
    } else if head.fate.Plain? || head.fate.Resolves? {
      YieldInOrder(s);
    } else {
      ShiftInOrder(s);
    }
  }

  lemma LoopInOrder<V>(s: State<V>)
    requires InOrder(s) && s.consumer == Looping
    ensures InOrder(OnLoop(s))
  {}

  lemma EndsInOrder<V>(s: State<V>)
    requires InOrder(s) && ResultCount(s.queue) == |s.queue| && (s.next ==> s.consumer == Waiting)
    ensures InOrder(OnEnd(s)) && InOrder(OnStreamError(s))
  {
    MarkerOrder(s.queue, s.calls, s.yielded, HeadTaken(s), Eof);
    MarkerOrder(s.queue, s.calls, s.yielded, HeadTaken(s), Failure);
  }

  lemma StepInOrder<V>(s: State<V>, a: Action<V>, concurrency: nat)
    requires concurrency >= 1 && WakeUps(s, concurrency) && EndInSight(s) && InOrder(s) && Enabled(s, a)
    ensures InOrder(Apply(s, a, concurrency))
  {
    match a
    case Chunk(fate) => ChunkInOrder(s, fate, concurrency);
    case End => EndsInOrder(s);
    case StreamError => EndsInOrder(s);
    case Loop => LoopInOrder(s);
    case Head => HeadInOrder(s);
    case Demand => ShiftInOrder(s);
    case Stop => FinishInOrder(s, Stopped);
    case Settle(i) => SettleOrder(s.queue, s.calls, s.yielded, HeadTaken(s), i);
    case _ =>
  }

  // ----- whole runs

  /** A run: where it starts, and every step it takes. */
  ghost predicate IsRun<V(!new)>(run: seq<State<V>>, concurrency: nat) {
    && |run| > 0 && run[0] == Initial()
    && forall i :: 0 <= i < |run| - 1 ==> CanStep(run[i], run[i + 1], concurrency)
  }

  ghost predicate CanStep<V(!new)>(s: State<V>, t: State<V>, concurrency: nat) {
    exists a: Action<V> :: Enabled(s, a) && t == Apply(s, a, concurrency)
  }

  /** Every action keeps the invariant. */
  lemma ActionInv<V>(s: State<V>, a: Action<V>, concurrency: nat)
    requires concurrency >= 1 && Inv(s, concurrency) && Enabled(s, a)
    ensures Inv(Apply(s, a, concurrency), concurrency)
  {
    StepWakeUps(s, a, concurrency);
    StepBounded(s, a, concurrency);
    StepEndInSight(s, a, concurrency);
    StepInOrder(s, a, concurrency);
  }

  lemma StepInv<V(!new)>(s: State<V>, t: State<V>, concurrency: nat)
    requires concurrency >= 1 && Inv(s, concurrency) && CanStep(s, t, concurrency)
    ensures Inv(t, concurrency)
  {
    var a: Action<V> :| Enabled(s, a) && t == Apply(s, a, concurrency);
    ActionInv(s, a, concurrency);
  }

  lemma {:induction false} RunInv<V(!new)>(run: seq<State<V>>, concurrency: nat, i: nat)
    requires concurrency >= 1 && IsRun(run, concurrency) && i < |run|
    ensures Inv(run[i], concurrency)
  {
    if i == 0 {
      InitialInv<V>(concurrency);
    } else {
      RunInv(run, concurrency, i - 1);
      assert CanStep(run[i - 1], run[i - 1 + 1], concurrency);
      StepInv(run[i - 1], run[i], concurrency);
    }
  }

  lemma OrderInv<V>(s: State<V>, concurrency: nat)
    requires Inv(s, concurrency)
    ensures s.yielded <= Values(s.calls)
  {
    ValuesOfPushed(s.calls);
    var k := HeadPlace(s.queue, s.calls);
    ValuesPrefix(Pushed(s.calls), if HeadTaken(s) then k + 1 else k);
  }

  lemma AllInv<V>(s: State<V>, concurrency: nat)
    requires Inv(s, concurrency) && s.consumer == Returned(AtEof)
    ensures s.yielded == Values(s.calls)
    ensures forall j :: 0 <= j < |s.calls| ==> !s.calls[j].Rejects?
  {
    ValuesOfPushed(s.calls);
    assert Pushed(s.calls)[..|Pushed(s.calls)|] == Pushed(s.calls);
    NoRejects(s.calls);
  }

  /** At any time, what has been yielded are the first results in call order, kEmpty dropped. */
  lemma YieldsInOrder<V(!new)>(run: seq<State<V>>, concurrency: nat, i: nat)
    requires concurrency >= 1 && IsRun(run, concurrency) && i < |run|
    ensures run[i].yielded <= Values(run[i].calls)
  {
    RunInv(run, concurrency, i);
    OrderInv(run[i], concurrency);
  }

  /** A generator that ran to the end has yielded every result there was, and none of the calls failed. */
  lemma YieldsAll<V(!new)>(run: seq<State<V>>, concurrency: nat, i: nat)
    requires concurrency >= 1 && IsRun(run, concurrency) && i < |run| && run[i].consumer == Returned(AtEof)
    ensures run[i].yielded == Values(run[i].calls)
    ensures forall j :: 0 <= j < |run[i].calls| ==> !run[i].calls[j].Rejects?
  {
    RunInv(run, concurrency, i);
    AllInv(run[i], concurrency);
  }

  /** The pump waiting for resume and the consumer waiting for next never happen together, and neither wait is in vain. */
  lemma NeverBothWaiting<V(!new)>(run: seq<State<V>>, concurrency: nat, i: nat)
    requires concurrency >= 1 && IsRun(run, concurrency) && i < |run|
    ensures !(run[i].pump == Parked && run[i].consumer == Waiting)
    ensures run[i].consumer == Waiting ==> run[i].pump == Reading || run[i].pump == Woken
    ensures run[i].pump == Parked ==>
              run[i].consumer.Looping? || run[i].consumer.Awaiting? || run[i].consumer.Yielded? || run[i].consumer.Called?
  {
    RunInv(run, concurrency, i);
  }

  /** Never more than `concurrency` results of fn are queued. */
  lemma QueueBound<V(!new)>(run: seq<State<V>>, concurrency: nat, i: nat)
    requires concurrency >= 1 && IsRun(run, concurrency) && i < |run|
    ensures ResultCount(run[i].queue) <= concurrency
    ensures forall j :: 0 <= j < |run[i].queue| ==> (run[i].queue[j].Result? <==> j < ResultCount(run[i].queue))
  {
    RunInv(run, concurrency, i);
  }

  lemma {:induction false} ValuesOfPushed<V>(calls: seq<Fate<V>>)
    ensures Values(Pushed(calls)) == Values(calls)
  {
    if calls != [] {
      var n := |calls| - 1;
      ValuesOfPushed(calls[..n]);
      var p := Pushed(calls[..n]);
      if !calls[n].Nothing? {
        ValuesOne(p + [calls[n]], |p|);
        assert (p + [calls[n]])[..|p|] == p && (p + [calls[n]])[..|p| + 1] == p + [calls[n]];
      } else {
        assert Pushed(calls) == p;
      }
    }
  }

  lemma {:induction false} ValuesPrefix<V>(fates: seq<Fate<V>>, n: nat)
    requires n <= |fates|
    ensures Values(fates[..n]) <= Values(fates)
  {
    if n == |fates| {
      assert fates[..n] == fates;
    } else {
      var m := |fates| - 1;
      ValuesPrefix(fates[..m], n);
      assert fates[..m][..n] == fates[..n];
    }
  }

  lemma {:induction false} NoRejects<V>(calls: seq<Fate<V>>)
    requires forall i :: 0 <= i < |Pushed(calls)| ==> !Pushed(calls)[i].Rejects?
    ensures forall j :: 0 <= j < |calls| ==> !calls[j].Rejects?
  {
    if calls != [] {
      var n := |calls| - 1;
      var p := Pushed(calls[..n]);
      assert forall i :: 0 <= i < |p| ==> p[i] == Pushed(calls)[i];
      NoRejects(calls[..n]);
      if !calls[n].Nothing? { assert Pushed(calls)[|p|] == calls[n]; }
    }
  }

  // ----- the closure itself

  /**
   What has been yielded are the first results in call order with kEmpty dropped, and all of
   them once the end is seen; the queue never holds more than `concurrency` results, and the pump
   only waits if it holds that many; and pump and consumer never wait for each other.
   */
  ghost predicate Safe<V>(s: State<V>, concurrency: nat) {
    && s.yielded <= Values(s.calls)
    && (s.consumer == Returned(AtEof) ==> s.yielded == Values(s.calls))
    && ResultCount(s.queue) <= concurrency
    && !(s.pump == Parked && s.consumer == Waiting)
    && (s.consumer == Waiting ==> s.pump == Reading || s.pump == Woken)
    && (s.pump == Parked ==> |s.queue| >= concurrency)
  }

  lemma SafeInv<V>(s: State<V>, concurrency: nat)
    requires concurrency >= 1 && Inv(s, concurrency)
    ensures Safe(s, concurrency)
  {
    OrderInv(s, concurrency);
    if s.consumer == Returned(AtEof) { AllInv(s, concurrency); }
  }

  /** An action, if it is enabled, and a series of actions. */
  function Tried<V>(s: State<V>, a: Action<V>, concurrency: nat): State<V> {
    if Enabled(s, a) then Apply(s, a, concurrency) else s
  }

  function TriedAll<V>(s: State<V>, actions: seq<Action<V>>, concurrency: nat): State<V>
    decreases |actions|
  {
    if actions == [] then s else TriedAll(Tried(s, actions[0], concurrency), actions[1..], concurrency)
  }

  lemma {:induction false} TriedAllInv<V>(s: State<V>, actions: seq<Action<V>>, concurrency: nat)
    requires concurrency >= 1 && Inv(s, concurrency)
    ensures Inv(TriedAll(s, actions, concurrency), concurrency)
    decreases |actions|
  {
    if actions != [] {
      if Enabled(s, actions[0]) { ActionInv(s, actions[0], concurrency); }
      TriedAllInv(Tried(s, actions[0], concurrency), actions[1..], concurrency);
    }
  }

  // ----- how it ends

  /** Not an error of the stream, not an abort, not a call that fails. */
  predicate Harmless<V>(a: Action<V>) {
    !a.StreamError? && !a.Abort? && !(a.Chunk? && a.fate.Rejects?)
  }

  /** Nothing has failed: what is queued will not throw. */
  ghost predicate Unharmed<V>(s: State<V>) {
    && (forall i :: 0 <= i < |s.queue| ==> !s.queue[i].Failure? && (s.queue[i].Result? ==> !s.queue[i].fate.Rejects?))
    && (s.aborted ==> s.consumer.Returned?)
    && s.consumer != Returned(Threw)
  }

  lemma UnharmedStep<V>(s: State<V>, a: Action<V>, concurrency: nat)
    requires Inv(s, concurrency) && Unharmed(s) && Harmless(a) && Enabled(s, a)
    ensures Unharmed(Apply(s, a, concurrency))
  {
    hide InOrder, Bounded;
  }

  /** The end of the stream is queued, or has been seen. */
  ghost predicate EofKnown<V>(s: State<V>) {
    s.consumer == Returned(AtEof) || exists i :: 0 <= i < |s.queue| && s.queue[i] == Eof
  }

  lemma EofStep<V>(s: State<V>, a: Action<V>, concurrency: nat)
    requires Inv(s, concurrency) && !EofKnown(s) && Enabled(s, a)
    ensures a != End ==> !EofKnown(Apply(s, a, concurrency))
    ensures s.pump == Finished ==> a != End && Apply(s, a, concurrency).pump == Finished
  {
    hide InOrder, Bounded;
  }

  /** While the pump still runs, no end is queued; a stream error takes the place of the end. */
  lemma ErrorInstead<V>(s: State<V>, concurrency: nat)
    requires Inv(s, concurrency) && Enabled(s, StreamError)
    ensures !EofKnown(s) && Apply(s, StreamError, concurrency).pump == Finished
  {
    hide WakeUps, Bounded;
  }

  lemma {:induction false} TriedAllMore<V>(s: State<V>, actions: seq<Action<V>>, i: nat, concurrency: nat)
    requires i < |actions|
    ensures TriedAll(s, actions[..i + 1], concurrency) == Tried(TriedAll(s, actions[..i], concurrency), actions[i], concurrency)
    decreases i
  {
    if i > 0 {
      var rest := actions[1..];
      assert actions[..i + 1][1..] == rest[..i] && actions[..i][1..] == rest[..i - 1] && rest[i - 1] == actions[i];
      TriedAllMore(Tried(s, actions[0], concurrency), rest, i - 1, concurrency);
    } else {
      assert actions[..1][1..] == [];
    }
  }

  /** The i-th action of a series that starts at the beginning is not left out. */
  ghost predicate Taken<V>(actions: seq<Action<V>>, i: nat, concurrency: nat) {
    i < |actions| && Enabled(TriedAll(Initial(), actions[..i], concurrency), actions[i])
  }

  /**
   How a generator ends: by itself at the end of the stream, and only if the end of the stream
   was taken and no error; by a throw only if the stream failed, a call failed, or it was
   aborted; and otherwise because its consumer stopped it.
   */
  ghost predicate EndsProperly<V>(actions: seq<Action<V>>, s: State<V>, concurrency: nat) {
    && (s.consumer == Returned(Threw) ==> exists i :: 0 <= i < |actions| && !Harmless(actions[i]))
    && (s.consumer == Returned(AtEof) ==>
          && (exists i: nat :: Taken(actions, i, concurrency) && actions[i] == End)
          && (forall i: nat :: Taken(actions, i, concurrency) ==> actions[i] != StreamError))
    && (s.consumer == Returned(Stopped) ==> Stop in actions)
  }

  lemma {:induction false} HarmlessRuns<V>(actions: seq<Action<V>>, i: nat, concurrency: nat)
    requires concurrency >= 1 && i <= |actions| && forall j :: 0 <= j < i ==> Harmless(actions[j])
    ensures Unharmed(TriedAll(Initial(), actions[..i], concurrency))
  {
    if i > 0 {
      var s := TriedAll(Initial(), actions[..i - 1], concurrency);
      HarmlessRuns(actions, i - 1, concurrency);
      InitialInv<V>(concurrency);
      TriedAllInv(Initial(), actions[..i - 1], concurrency);
      TriedAllMore(Initial(), actions, i - 1, concurrency);
      if Enabled(s, actions[i - 1]) { UnharmedStep(s, actions[i - 1], concurrency); }
    }
  }

  /** No end without an `End`, and none after a `StreamError`. */
  lemma {:induction false} EofNeedsEnd<V>(actions: seq<Action<V>>, i: nat, e: nat, concurrency: nat)
    requires concurrency >= 1 && i <= |actions|
    requires (forall j :: 0 <= j < i && Taken(actions, j, concurrency) ==> actions[j] != End) ||
             (e < i && Taken(actions, e, concurrency) && actions[e] == StreamError)
    ensures !EofKnown(TriedAll(Initial(), actions[..i], concurrency))
    ensures e < i && Taken(actions, e, concurrency) && actions[e] == StreamError ==>
              TriedAll(Initial(), actions[..i], concurrency).pump == Finished
  {
    if i > 0 {
      var s, a := TriedAll(Initial(), actions[..i - 1], concurrency), actions[i - 1];
      InitialInv<V>(concurrency);
      TriedAllInv(Initial(), actions[..i - 1], concurrency);
      TriedAllMore(Initial(), actions, i - 1, concurrency);
      if e == i - 1 && Taken(actions, e, concurrency) && a == StreamError {
        ErrorInstead(s, concurrency);
        EofStep(s, a, concurrency);
      } else {
        EofNeedsEnd(actions, i - 1, e, concurrency);
        if Enabled(s, a) { EofStep(s, a, concurrency); }
      }
    }
  }

  lemma {:induction false} StoppedBy<V>(actions: seq<Action<V>>, i: nat, concurrency: nat)
    requires i <= |actions| && TriedAll(Initial(), actions[..i], concurrency).consumer == Returned(Stopped)
    ensures Stop in actions
  {
    if i > 0 {
      TriedAllMore(Initial(), actions, i - 1, concurrency);
      if actions[i - 1] != Stop { StoppedBy(actions, i - 1, concurrency); }
    }
  }

  /** Every series of actions from the beginning. */
  lemma Endings<V>(actions: seq<Action<V>>, concurrency: nat)
    requires concurrency >= 1
    ensures EndsProperly(actions, TriedAll(Initial(), actions, concurrency), concurrency)
  {
    var s, n := TriedAll(Initial(), actions, concurrency), |actions|;
    assert actions[..n] == actions;
    if s.consumer == Returned(Threw) && forall i :: 0 <= i < n ==> Harmless(actions[i]) {
      HarmlessRuns(actions, n, concurrency);
    }
    if s.consumer == Returned(AtEof) {
      if forall i: nat :: Taken(actions, i, concurrency) ==> actions[i] != End { EofNeedsEnd(actions, n, 0, concurrency); }
      forall i: nat | Taken(actions, i, concurrency) ensures actions[i] != StreamError {
        if actions[i] == StreamError { EofNeedsEnd(actions, n, i, concurrency); }
      }
    }
    if s.consumer == Returned(Stopped) { StoppedBy(actions, n, concurrency); }
  }

  /** After an abort nothing is yielded any more. */
  lemma {:induction false} AbortedYieldsNothing<V>(s: State<V>, actions: seq<Action<V>>, concurrency: nat)
    requires s.aborted
    ensures TriedAll(s, actions, concurrency).aborted && TriedAll(s, actions, concurrency).yielded == s.yielded
    decreases |actions|
  {
    if actions != [] { AbortedYieldsNothing(Tried(s, actions[0], concurrency), actions[1..], concurrency); }
  }

  /** The variables of the generator's closure, updated by the code that runs between two awaits. */
  class Closure<V> {
    const concurrency: nat
    var pump: Pump
    var consumer: Consumer
    var queue: seq<Item<V>>
    var next: bool
    var resume: bool
    var done: bool
    var aborted: bool
    ghost var calls: seq<Fate<V>>
    ghost var yielded: seq<V>

    ghost function Now(): State<V>
      reads this
    {
      State(pump, consumer, queue, next, resume, done, aborted, calls, yielded)
    }

    ghost predicate Valid()
      reads this
    {
      concurrency >= 1 && Inv(Now(), concurrency)
    }

    constructor (concurrency: nat)
      requires concurrency >= 1
      ensures this.concurrency == concurrency && Now() == Initial() && Valid()
    {
      InitialInv<V>(concurrency);
      this.concurrency := concurrency;
      pump, consumer, queue := Reading, Looping, [];
      next, resume, done, aborted := false, false, false, false;
      calls, yielded := [], [];
    }

    method WakeConsumer()
      modifies this
      ensures Now() == CallNext(old(Now()))
    {
      if next {
        consumer := Called;
        next := false;
      }
    }

    method WakePump()
      modifies this
      ensures Now() == CallResume(old(Now()))
    {
      if resume {
        pump := Woken;
        resume := false;
      }
    }

    method FinishPump()
      modifies this
      ensures Now() == PumpFinally(old(Now()))
    {
      pump := Finished;
      done := true;
      WakeConsumer();
    }

    /** The body of the pump's loop. */
    method TakeChunk(fate: Fate<V>)
      requires Enabled(Now(), Chunk(fate))
      modifies this
      ensures Now() == Apply(old(Now()), Chunk(fate), concurrency)
    {
      if done {
        FinishPump();
        return;
      }
      if aborted {
        queue := queue + [Failure];
        FinishPump();
        return;
      }
      calls := calls + [fate];
      if fate.Nothing? { return; }
      queue := queue + [Result(fate, fate.Plain?)];
      WakeConsumer();
      if !done && |queue| > 0 && |queue| >= concurrency {
        resume := true;
        pump := Parked;
      }
    }

    method TakeEnd()
      requires Enabled(Now(), End)
      modifies this
      ensures Now() == Apply(old(Now()), End, concurrency)
    {
      queue := queue + [Eof];
      FinishPump();
    }

    method TakeStreamError()
      requires Enabled(Now(), StreamError)
      modifies this
      ensures Now() == Apply(old(Now()), StreamError, concurrency)
    {
      queue := queue + [Failure];
      FinishPump();
    }

    method FinishConsumer(ending: Ending)
      modifies this
      ensures Now() == ConsumerFinally(old(Now()), ending)
    {
      consumer := Returned(ending);
      aborted := true;
      done := true;
      WakePump();
    }

    method ShiftHead()
      requires |queue| > 0
      modifies this
      ensures Now() == Shift(old(Now()))
    {
      queue := queue[1..];
      consumer := Looping;
      WakePump();
    }

    method TestQueue()
      requires Enabled(Now(), Loop)
      modifies this
      ensures Now() == Apply(old(Now()), Loop, concurrency)
    {
      if |queue| > 0 {
        consumer := Awaiting;
      } else {
        next := true;
        consumer := Waiting;
      }
    }

    /** What follows `await queue[0]`; a value to yield is returned. */
    method TakeHead() returns (value: seq<V>)
      requires Enabled(Now(), Head)
      modifies this
      ensures Now() == Apply(old(Now()), Head, concurrency)
      ensures yielded == old(yielded) + value
    {
      value := [];
      var head := queue[0];
      if head.Eof? {
        FinishConsumer(AtEof);
      } else if head.Failure? || head.fate.Rejects? || aborted {
        FinishConsumer(Threw);
      } else if head.fate.Plain? || head.fate.Resolves? {
        value := [head.fate.v];
        yielded := yielded + value;
        consumer := Yielded;
      } else {
        ShiftHead();
      }
    }

    method PumpAct(a: Action<V>)
      requires Enabled(Now(), a) && (a.Chunk? || a.End? || a.StreamError? || a.PumpRuns?)
      modifies this
      ensures Now() == Apply(old(Now()), a, concurrency) && yielded == old(yielded)
    {
      if a.Chunk? { TakeChunk(a.fate); }
      else if a.End? { TakeEnd(); }
      else if a.StreamError? { TakeStreamError(); }
      else { pump := Reading; }
    }

    method ConsumerAct(a: Action<V>) returns (value: seq<V>)
      requires Enabled(Now(), a) && (a.Loop? || a.Head? || a.Demand? || a.Stop? || a.ConsumerRuns?)
      modifies this
      ensures Now() == Apply(old(Now()), a, concurrency) && yielded == old(yielded) + value
    {
      value := [];
      if a.Loop? { TestQueue(); }
      else if a.Head? { value := TakeHead(); }
      else if a.Demand? { ShiftHead(); }
      else if a.Stop? { FinishConsumer(Stopped); }
      else { consumer := Looping; }
    }

    method OtherAct(a: Action<V>)
      requires Enabled(Now(), a) && (a.Settle? || a.RejectionSeen? || a.Abort?)
      modifies this
      ensures Now() == Apply(old(Now()), a, concurrency) && yielded == old(yielded)
    {
      if a.Settle? { queue := queue[a.index := queue[a.index].(settled := true)]; }
      else if a.RejectionSeen? { done := true; }
      else { aborted := true; }
    }

    /** One action of pump, consumer, promises or abort; a value to yield is returned. */
    method Act(a: Action<V>) returns (value: seq<V>)
      requires Enabled(Now(), a)
      modifies this
      ensures Now() == Apply(old(Now()), a, concurrency) && yielded == old(yielded) + value
    {
      value := [];
      if a.Chunk? || a.End? || a.StreamError? || a.PumpRuns? {
        PumpAct(a);
      } else if a.Settle? || a.RejectionSeen? || a.Abort? {
        OtherAct(a);
      } else {
        value := ConsumerAct(a);
      }
    }

    method Allowed(a: Action<V>) returns (b: bool)
      ensures b == Enabled(Now(), a)
    {
      b := Enabled(State(pump, consumer, queue, next, resume, done, aborted, [], []), a);
    }

    /** One action, if it is enabled. */
    method Step(a: Action<V>) returns (value: seq<V>)
      modifies this
      ensures Now() == Tried(old(Now()), a, concurrency) && yielded == old(yielded) + value
    {
      value := [];
      var allowed := Allowed(a);
      if allowed { value := Act(a); }
    }

    method StepAll(actions: seq<Action<V>>) returns (values: seq<V>)
      modifies this
      ensures Now() == TriedAll(old(Now()), actions, concurrency) && yielded == old(yielded) + values
      decreases |actions|
    {
      values := [];
      if actions != [] {
        var value := Step(actions[0]);
        var rest := StepAll(actions[1..]);
        values := value + rest;
      }
    }

    /** Any actions in any order, those that are not enabled left out. */
    method Run(actions: seq<Action<V>>) returns (values: seq<V>)
      requires Valid()
      modifies this
      ensures Valid() && Safe(Now(), concurrency) && yielded == old(yielded) + values
      ensures Now() == TriedAll(old(Now()), actions, concurrency)
      ensures old(Now()) == Initial() ==> EndsProperly(actions, Now(), concurrency)
      ensures old(aborted) ==> values == []
    {
      Endings(actions, concurrency);
      if aborted { AbortedYieldsNothing(Now(), actions, concurrency); }
      TriedAllInv(Now(), actions, concurrency);
      SafeInv(TriedAll(Now(), actions, concurrency), concurrency);
      values := StepAll(actions);
    }
  }
}
