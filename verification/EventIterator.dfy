/**
 The asynchronous iterator that `on()` makes of an emitter: events not yet asked for wait in
 one queue, calls of next() not yet answered in another. Calls are numbered, and `answers`
 says what the promise of each call has become.
 */
module EventIterator {
  import opened Sequences

  /** What an error handler may be given: a value that `if (error)` takes for an error, or not. */
  datatype Thrown<+E> = Falsy | Truthy(error: E)

  datatype Answer<+V, +E> = Pending | Value(args: V) | Rejected(reason: Thrown<E>) | Done

  /**
   How call i should be answered: with event i as long as there is one. Of the others, those
   in `failures` see an error; the rest wait until the iterator is finished, and then are done.
   */
  function Expected<V, E>(emitted: seq<V>, failures: map<nat, Thrown<E>>, finished: bool, i: nat): Answer<V, E> {
    if i < |emitted| then Value(emitted[i])
    else if i in failures then Rejected(failures[i])
    else if finished then Done else Pending
  }

  ghost predicate Answered<V, E>(answers: seq<Answer<V, E>>, emitted: seq<V>, failures: map<nat, Thrown<E>>, finished: bool) {
    forall i :: 0 <= i < |answers| ==> answers[i] == Expected(emitted, failures, finished, i)
  }

  /** The call that sees the next error: the first one that is not made yet and gets no event. */
  function Turn(events: nat, calls: nat): nat {
    if calls < events then events else calls
  }

  /** A failure was seen by a call, or is kept for the call whose turn it is. */
  ghost predicate Kept<E>(failures: map<nat, Thrown<E>>, error: Thrown<E>, events: nat, calls: nat) {
    && (forall c :: c in failures ==> events <= c <= Turn(events, calls))
    && (error.Truthy? ==> Turn(events, calls) in failures && failures[Turn(events, calls)] == error)
    && (Turn(events, calls) in failures ==> error.Truthy?)
  }

  /** The calls that wait, in order. */
  function PendingCalls<V, E>(answers: seq<Answer<V, E>>): seq<nat> {
    if answers == [] then []
    else
      var n := |answers| - 1;
      PendingCalls(answers[..n]) + if answers[n].Pending? then [n] else []
  }

  lemma PendingMore<V, E>(answers: seq<Answer<V, E>>, a: Answer<V, E>)
    ensures PendingCalls(answers + [a]) == PendingCalls(answers) + if a.Pending? then [|answers|] else []
  {
    assert (answers + [a])[..|answers|] == answers;
  }

  lemma {:induction false} PendingNone<V, E>(answers: seq<Answer<V, E>>, i: nat)
    requires PendingCalls(answers) == [] && i < |answers|
    ensures !answers[i].Pending?
  {
    if i < |answers| - 1 { PendingNone(answers[..|answers| - 1], i); }
  }

  /** The first call that waits, and what is left when it is answered. */
  lemma {:induction false} PendingFirst<V, E>(answers: seq<Answer<V, E>>, a: Answer<V, E>, i: nat)
    requires PendingCalls(answers) != [] && !a.Pending?
    ensures var q := PendingCalls(answers)[0];
            && q < |answers| && answers[q].Pending? && (i < q ==> !answers[i].Pending?)
            && PendingCalls(answers[q := a]) == PendingCalls(answers)[1..]
  {
    var n := |answers| - 1;
    var init := answers[..n];
    if PendingCalls(init) != [] {
      PendingFirst(init, a, i);
      var q := PendingCalls(init)[0];
      assert answers[q := a][..n] == init[q := a];
    } else {
      if i < n { PendingNone(init, i); }
      assert answers[n := a][..n] == init;
    }
  }

  /** Everything that waits is done. */
  function Settled<V, E>(answers: seq<Answer<V, E>>): seq<Answer<V, E>> {
    seq(|answers|, i requires 0 <= i < |answers| => if answers[i].Pending? then Done else answers[i])
  }

  lemma SettledOne<V, E>(answers: seq<Answer<V, E>>, q: nat)
    requires q < |answers| && answers[q].Pending?
    ensures Settled(answers[q := Done]) == Settled(answers)
  {}

  lemma SettledAll<V, E>(answers: seq<Answer<V, E>>)
    requires PendingCalls(answers) == []
    ensures Settled(answers) == answers
  {
    forall i | 0 <= i < |answers| ensures Settled(answers)[i] == answers[i] { PendingNone(answers, i); }
  }

  /** The events that no call has asked for. */
  function Unread<V>(emitted: seq<V>, calls: nat): seq<V> {
    if calls < |emitted| then emitted[calls..] else []
  }

  /** One more call. */
  lemma CallAnswered<V, E>(answers: seq<Answer<V, E>>, emitted: seq<V>, failures: map<nat, Thrown<E>>, finished: bool)
    requires Answered(answers, emitted, failures, finished)
    ensures Answered(answers + [Expected(emitted, failures, finished, |answers|)], emitted, failures, finished)
  {}

  lemma CallKept<E>(failures: map<nat, Thrown<E>>, error: Thrown<E>, events: nat, calls: nat)
    requires Kept(failures, error, events, calls)
    ensures Kept(failures, if calls < events then error else Falsy, events, calls + 1)
    ensures calls >= events ==> (calls in failures <==> error.Truthy?) && (error.Truthy? ==> failures[calls] == error)
  {}

  lemma CallUnread<V>(emitted: seq<V>, calls: nat)
    ensures calls < |emitted| ==> Unread(emitted, calls) == [emitted[calls]] + Unread(emitted, calls + 1)
    ensures calls >= |emitted| ==> Unread(emitted, calls) == [] == Unread(emitted, calls + 1)
  {}

  /** One more event, while nothing has failed: it answers the first call that waits. */
  lemma EventAnswered<V, E>(answers: seq<Answer<V, E>>, emitted: seq<V>, args: V)
    requires Answered(answers, emitted, map[], false)
    ensures PendingCalls(answers) == [] ==> |answers| <= |emitted| && Answered(answers, emitted + [args], map[], false)
    ensures PendingCalls(answers) != [] ==> PendingCalls(answers)[0] == |emitted| < |answers|
    ensures PendingCalls(answers) != [] ==> Answered(answers[|emitted| := Value(args)], emitted + [args], map[], false)
  {
    var m := |emitted|;
    if PendingCalls(answers) != [] {
      PendingFirst(answers, Done, m);
    } else if m < |answers| {
      PendingNone(answers, m);
    }
  }

  lemma FinishAnswered<V, E>(answers: seq<Answer<V, E>>, emitted: seq<V>, failures: map<nat, Thrown<E>>, finished: bool)
    requires Answered(answers, emitted, failures, finished)
    ensures Answered(Settled(answers), emitted, failures, true)
    ensures finished ==> PendingCalls(answers) == []
  {
    if finished && PendingCalls(answers) != [] { PendingFirst(answers, Done, 0); }
  }

  lemma EventUnread<V>(emitted: seq<V>, calls: nat, args: V)
    ensures calls <= |emitted| ==> Unread(emitted + [args], calls) == Unread(emitted, calls) + [args]
    ensures calls > |emitted| ==> Unread(emitted + [args], calls) == Unread(emitted, calls)
  {}

  /**
   What an error makes of `failures`. A finished iterator may have promises in its queue, but
   they are settled, and rejecting one of them does nothing.
   */
  function Failing<E>(failures: map<nat, Thrown<E>>, err: Thrown<E>, finished: bool, queue: seq<nat>,
                      events: nat, calls: nat): map<nat, Thrown<E>> {
    if queue == [] then
      if err.Truthy? then failures[Turn(events, calls) := err] else failures - {Turn(events, calls)}
    else if finished then failures
    else failures[queue[0] := err]
  }

  /** An error that is kept for later changes no answer given so far. */
  lemma LaterAnswered<V, E>(answers: seq<Answer<V, E>>, emitted: seq<V>, failures: map<nat, Thrown<E>>, finished: bool,
                            error: Thrown<E>, err: Thrown<E>)
    requires Answered(answers, emitted, failures, finished) && Kept(failures, error, |emitted|, |answers|)
    ensures Answered(answers, emitted, Failing(failures, err, finished, [], |emitted|, |answers|), finished)
    ensures Kept(Failing(failures, err, finished, [], |emitted|, |answers|), err, |emitted|, |answers|)
  {}

  /** An error that a call that waits sees. */
  lemma RejectAnswered<V, E>(answers: seq<Answer<V, E>>, emitted: seq<V>, failures: map<nat, Thrown<E>>,
                             error: Thrown<E>, err: Thrown<E>, q: nat)
    requires Answered(answers, emitted, failures, false) && Kept(failures, error, |emitted|, |answers|)
    requires q < |answers| && answers[q].Pending?
    ensures Answered(answers[q := Rejected(err)], emitted, failures[q := err], false)
    ensures Kept(failures[q := err], error, |emitted|, |answers|)
  {
    assert |emitted| <= q && q !in failures && q != Turn(|emitted|, |answers|);
  }

  datatype Action<+V, +E> =
    | Call | Emit(args: V) | Error(reason: Thrown<E>) | Abort(error: E) | Finish | Fail(error: E)

  /** Who an error is for: the first call that waits, or the call whose turn it is. */
  function Target(queue: seq<nat>, events: nat, calls: nat): nat {
    if queue != [] then queue[0] else Turn(events, calls)
  }

  /**
   That call sees the error exactly if it waits already, or none does and the error is truthy;
   no call sees it if the head of the queue is settled. For no other call anything changes.
   */
  lemma SeenExactly<V, E>(emitted: seq<V>, failures: map<nat, Thrown<E>>, err: Thrown<E>, finished: bool,
                          queue: seq<nat>, calls: nat, c: nat)
    requires !finished ==> forall k :: 0 <= k < |queue| ==> |emitted| <= queue[k]
    ensures var failures' := Failing(failures, err, finished, queue, |emitted|, calls);
            if c == Target(queue, |emitted|, calls) && (queue == [] || !finished)
            then Expected(emitted, failures', true, c) == if queue != [] || err.Truthy? then Rejected(err) else Done
            else Expected(emitted, failures', true, c) == Expected(emitted, failures, true, c)
  {}

  // ----- what the actions make of the iterator, seen from outside

  /** `stale` counts the promises that return() has settled and left in the queue. */
  datatype View<+V, +E> = View(emitted: seq<V>, calls: nat, failures: map<nat, Thrown<E>>,
                               finished: bool, stale: nat, listening: bool, signalled: bool)

  function AnswersOf<V, E>(m: View<V, E>): seq<Answer<V, E>> {
    seq(m.calls, i requires 0 <= i < m.calls => Expected(m.emitted, m.failures, m.finished, i))
  }

  /** return(): what waits is settled but stays in the queue, and the listener of the signal stays registered. */
  function Returned<V, E>(m: View<V, E>): View<V, E> {
    View(m.emitted, m.calls, m.failures, true, if m.finished then m.stale else |PendingCalls(AnswersOf(m))|,
         false, m.signalled)
  }

  /** An error comes in. On a finished iterator it may be lost on a promise that is settled. */
  function Broken<V, E>(m: View<V, E>, err: Thrown<E>): View<V, E> {
    if m.finished && m.stale > 0 then m.(stale := m.stale - 1)
    else
      var failures := Failing(m.failures, err, m.finished, PendingCalls(AnswersOf(m)), |m.emitted|, m.calls);
      Returned(m.(failures := failures))
  }

  /** The listener of the signal is registered once and never removed: an abort is heard after return() too. */
  function After<V, E>(m: View<V, E>, a: Action<V, E>): View<V, E> {
    match a
    case Call => m.(calls := m.calls + 1)
    case Emit(args) => if m.listening then m.(emitted := m.emitted + [args]) else m
    case Error(err) => if m.listening then Broken(m, err) else m
    case Abort(err) => if m.signalled then Broken(m.(signalled := false), Truthy(err)) else m
    case Finish => Returned(m)
    case Fail(err) => m.(failures := m.failures[Turn(|m.emitted|, m.calls) := Truthy(err)], listening := false)
  }

  function AfterAll<V, E>(m: View<V, E>, actions: seq<Action<V, E>>): View<V, E>
    decreases |actions|
  {
    if actions == [] then m else AfterAll(After(m, actions[0]), actions[1..])
  }

  /** What an action says, and whether it stops the listening. */
  function Said<V, E>(a: Action<V, E>, listening: bool): seq<V> {
    if a.Emit? && listening then [a.args] else []
  }

  predicate Stops<V, E>(a: Action<V, E>, listening: bool, signalled: bool) {
    a.Finish? || a.Fail? || (a.Error? && listening) || (a.Abort? && signalled)
  }

  /** The events that are heard: those emitted before anything stops the listening. */
  function Heard<V, E>(actions: seq<Action<V, E>>, listening: bool, signalled: bool): seq<V>
    decreases |actions|
  {
    if actions == [] then []
    else
      var stops := Stops(actions[0], listening, signalled);
      Said(actions[0], listening) +
      Heard(actions[1..], listening && !stops, signalled && !actions[0].Abort?)
  }

  lemma OneHeard<V, E>(m: View<V, E>, a: Action<V, E>)
    requires m.finished ==> !m.listening
    ensures var n := After(m, a);
            && n.emitted == m.emitted + Said(a, m.listening) && (n.finished ==> !n.listening)
            && n.listening == (m.listening && !Stops(a, m.listening, m.signalled))
            && n.signalled == (m.signalled && !a.Abort?)
  {}

  /** Nothing that is heard is lost, and nothing else is there. */
  lemma {:induction false} AllHeard<V, E>(m: View<V, E>, actions: seq<Action<V, E>>)
    requires m.finished ==> !m.listening
    ensures AfterAll(m, actions).emitted == m.emitted + Heard(actions, m.listening, m.signalled)
    decreases |actions|
  {
    if actions != [] {
      var n := After(m, actions[0]);
      OneHeard(m, actions[0]);
      AllHeard(n, actions[1..]);
      Regroup(m.emitted, Said(actions[0], m.listening), Heard(actions[1..], n.listening, n.signalled));
    }
  }

  /** Only calls beyond the events wait. */
  lemma QueueBeyond<V, E>(answers: seq<Answer<V, E>>, emitted: seq<V>, failures: map<nat, Thrown<E>>, finished: bool)
    requires Answered(answers, emitted, failures, finished)
    ensures forall k :: 0 <= k < |PendingCalls(answers)| ==> |emitted| <= PendingCalls(answers)[k]
    ensures finished ==> PendingCalls(answers) == []
  {
    if finished && PendingCalls(answers) != [] { PendingAt(answers, 0); }
    forall k | 0 <= k < |PendingCalls(answers)| ensures |emitted| <= PendingCalls(answers)[k] { PendingAt(answers, k); }
  }

  lemma {:induction false} PendingAt<V, E>(answers: seq<Answer<V, E>>, k: nat)
    requires k < |PendingCalls(answers)|
    ensures PendingCalls(answers)[k] < |answers| && answers[PendingCalls(answers)[k]].Pending?
  {
    var n := |answers| - 1;
    if k < |PendingCalls(answers[..n])| { PendingAt(answers[..n], k); }
  }

  lemma OneRejected<V, E>(answers: seq<Answer<V, E>>, emitted: seq<V>, failures: map<nat, Thrown<E>>, err: Thrown<E>,
                          q: nat, answers': seq<Answer<V, E>>)
    requires Answered(answers, emitted, failures, false) && |answers'| == |answers|
    requires Answered(answers', emitted, failures[q := err], false)
    requires q < |answers| && answers[q].Pending?
    ensures answers' == answers[q := Rejected(err)]
  {}

  lemma NoneRejected<V, E>(answers: seq<Answer<V, E>>, emitted: seq<V>, failures: map<nat, Thrown<E>>, err: Thrown<E>,
                           answers': seq<Answer<V, E>>)
    requires Answered(answers, emitted, failures, false) && |answers'| == |answers|
    requires Answered(answers', emitted, Failing(failures, err, false, [], |emitted|, |answers|), false)
    ensures answers' == answers
  {}

  /** The call that sees the error is no longer in the queue. */
  lemma BrokenQueue<V, E>(answers: seq<Answer<V, E>>, emitted: seq<V>, failures: map<nat, Thrown<E>>, err: Thrown<E>,
                          answers': seq<Answer<V, E>>)
    requires Answered(answers, emitted, failures, false) && |answers'| == |answers|
    requires Answered(answers', emitted, Failing(failures, err, false, PendingCalls(answers), |emitted|, |answers|), false)
    ensures PendingCalls(answers') == if PendingCalls(answers) == [] then [] else PendingCalls(answers)[1..]
  {
    if PendingCalls(answers) == [] {
      NoneRejected(answers, emitted, failures, err, answers');
    } else {
      PendingFirst(answers, Rejected(err), 0);
      OneRejected(answers, emitted, failures, err, PendingCalls(answers)[0], answers');
    }
  }

  /** In terms of the queue of promises: its head is taken, whether it waits or is settled. */
  lemma BrokenIs<V, E>(m: View<V, E>, err: Thrown<E>, queue: seq<nat>)
    requires if m.finished then m.stale == |queue| && !m.listening else queue == PendingCalls(AnswersOf(m))
    ensures Broken(m, err) == View(m.emitted, m.calls, Failing(m.failures, err, m.finished, queue, |m.emitted|, m.calls),
                                   true, if queue == [] then 0 else |queue| - 1, false, m.signalled)
  {
    if m.finished {
      QueueBeyond(AnswersOf(m), m.emitted, m.failures, true);
    } else {
      var n := m.(failures := Failing(m.failures, err, false, queue, |m.emitted|, m.calls));
      BrokenQueue(AnswersOf(m), m.emitted, m.failures, err, AnswersOf(n));
    }
  }

  class Iterator<V(==), E(==)> {
    var unconsumedEvents: seq<V>
    var unconsumedPromises: seq<nat>       // the calls whose promises wait
    var error: Thrown<E>
    var finished: bool
    var listening: bool                    // to the event and to 'error'
    var signalled: bool                    // to the abort signal
    var answers: seq<Answer<V, E>>
    ghost var emitted: seq<V>
    ghost var failures: map<nat, Thrown<E>>

    ghost predicate Valid()
      reads this
    {
      && Answered(answers, emitted, failures, finished)
      && Kept(failures, error, |emitted|, |answers|)
      && unconsumedEvents == Unread(emitted, |answers|)
      && (forall k :: 0 <= k < |unconsumedPromises| ==> unconsumedPromises[k] < |answers|)
      && (finished ==> !listening)
      && (!finished ==> unconsumedPromises == PendingCalls(answers))
      && (listening ==> failures == map[])
    }

    ghost function Now(): View<V, E>
      reads this
    {
      View(emitted, |answers|, failures, finished, if finished then |unconsumedPromises| else 0, listening, signalled)
    }

    constructor (hasSignal: bool)
      ensures Valid() && Now() == View([], 0, map[], false, 0, true, hasSignal)
    {
      unconsumedEvents, unconsumedPromises, error, finished := [], [], Falsy, false;
      listening, signalled, answers := true, hasSignal, [];
      emitted, failures := [], map[];
    }

    method Next() returns (call: nat)
      requires Valid()
      modifies this`answers, this`unconsumedEvents, this`unconsumedPromises, this`error
      ensures Valid() && call == |old(answers)|
      ensures answers == old(answers) + [Expected(emitted, failures, finished, call)]
      ensures finished ==> unconsumedPromises == old(unconsumedPromises)
    {
      hide Answered, Kept, Unread, PendingCalls;
      call := |answers|;
      var answer := TakeAnswer();
      assert Answered(answers + [answer], emitted, failures, finished) by {
        CallAnswered(answers, emitted, failures, finished);
      }
      PendingMore(answers, answer);
      answers := answers + [answer];
    }

    /** The four cases of next(). */
    method TakeAnswer() returns (a: Answer<V, E>)
      requires unconsumedEvents == Unread(emitted, |answers|) && Kept(failures, error, |emitted|, |answers|)
      modifies this`unconsumedEvents, this`unconsumedPromises, this`error
      ensures a == Expected(emitted, failures, finished, |answers|)
      ensures unconsumedEvents == Unread(emitted, |answers| + 1)
      ensures Kept(failures, error, |emitted|, |answers| + 1)
      ensures unconsumedPromises == if a == Pending then old(unconsumedPromises) + [|answers|] else old(unconsumedPromises)
    {
      CallKept(failures, error, |emitted|, |answers|);
      CallUnread(emitted, |answers|);
      if unconsumedEvents != [] {
        a := Value(unconsumedEvents[0]);
        unconsumedEvents := unconsumedEvents[1..];
      } else if error.Truthy? {
        a := Rejected(error);
        error := Falsy;
      } else if finished {
        a := Done;
      } else {
        unconsumedPromises := unconsumedPromises + [|answers|];
        a := Pending;
      }
    }

    method EventHandler(args: V)
      requires Valid() && listening
      modifies this`answers, this`unconsumedEvents, this`unconsumedPromises, this`emitted
      ensures Valid() && emitted == old(emitted) + [args] && |answers| == |old(answers)|
    {
      EventAnswered(answers, emitted, args);
      EventUnread(emitted, |answers|, args);
      if unconsumedPromises != [] {
        PendingFirst(answers, Value(args), 0);
        answers := answers[unconsumedPromises[0] := Value(args)];
        unconsumedPromises := unconsumedPromises[1..];
      } else {
        unconsumedEvents := unconsumedEvents + [args];
      }
      emitted := emitted + [args];
    }

    /** A promise that is settled already stays as it is. */
    method ResolveAll()
      requires forall k :: 0 <= k < |unconsumedPromises| ==> unconsumedPromises[k] < |answers|
      requires PendingCalls(answers) == [] || PendingCalls(answers) == unconsumedPromises
      modifies this`answers
      ensures answers == Settled(old(answers))
    {
      var k := 0;
      while k < |unconsumedPromises|
        invariant 0 <= k <= |unconsumedPromises| && |answers| == |old(answers)|
        invariant PendingCalls(answers) == [] || PendingCalls(answers) == unconsumedPromises[k..]
        invariant Settled(answers) == Settled(old(answers))
      {
        var call := unconsumedPromises[k];
        if PendingCalls(answers) != [] { PendingFirst(answers, Done, 0); } else { PendingNone(answers, call); }
        if answers[call].Pending? {
          SettledOne(answers, call);
          answers := answers[call := Done];
        }
        k := k + 1;
      }
      SettledAll(answers);
    }

    /**
     The iterator's return(): everything that waits is done. The promises stay in their queue,
     and the listener of the signal stays registered: what is taken off is not what was put on.
     */
    method Return()
      requires Valid()
      modifies this`answers, this`listening, this`finished
      ensures Valid() && finished && answers == Settled(old(answers))
    {
      FinishAnswered(answers, emitted, failures, finished);
      listening, finished := false, true;
      ResolveAll();
    }

    /**
     An 'error' event, or an abort, which may come when the iterator is finished. The first
     call that waits sees it; if the queue is empty, it is kept for the call whose turn it is,
     provided that it is truthy; if its head is settled, nobody sees it.
     */
    method ErrorHandler(err: Thrown<E>)
      requires Valid()
      modifies this`answers, this`unconsumedPromises, this`error, this`listening, this`finished, this`failures
      ensures Valid() && Now() == Broken(old(Now()), err)
      ensures forall c: nat :: c == Target(old(unconsumedPromises), |emitted|, |answers|) ==>
                old(unconsumedPromises) == [] || !old(finished) ==>
                Expected(emitted, failures, true, c) ==
                if old(unconsumedPromises) != [] || err.Truthy? then Rejected(err) else Done
    {
      QueueBeyond(answers, emitted, failures, finished);
      SeenExactly(emitted, failures, err, finished, unconsumedPromises, |answers|,
                  Target(unconsumedPromises, |emitted|, |answers|));
      Seen();
      BrokenIs(Now(), err, unconsumedPromises);
      BlameAndReturn(err);
    }

    method BlameAndReturn(err: Thrown<E>)
      requires Valid()
      modifies this`answers, this`unconsumedPromises, this`error, this`listening, this`finished, this`failures
      ensures Valid() && finished && |answers| == |old(answers)|
      ensures |unconsumedPromises| == if old(unconsumedPromises) == [] then 0 else |old(unconsumedPromises)| - 1
      ensures failures == Failing(old(failures), err, old(finished), old(unconsumedPromises), |emitted|, |answers|)
    {
      listening := false;
      Blame(err);
      Return();
    }

    /** Who sees the error. Rejecting a promise that is settled does nothing. */
    method Blame(err: Thrown<E>)
      requires Valid() && !listening
      modifies this`answers, this`unconsumedPromises, this`error, this`failures
      ensures Valid() && |answers| == |old(answers)|
      ensures unconsumedPromises == if old(unconsumedPromises) == [] then [] else old(unconsumedPromises)[1..]
      ensures failures == Failing(old(failures), err, finished, old(unconsumedPromises), |emitted|, |answers|)
    {
      if unconsumedPromises == [] {
        Keep(err);
      } else if finished {
        unconsumedPromises := unconsumedPromises[1..];
      } else {
        Reject(err);
      }
    }

    method Reject(err: Thrown<E>)
      requires Valid() && !finished && !listening && unconsumedPromises != []
      modifies this`answers, this`unconsumedPromises, this`failures
      ensures Valid() && |answers| == |old(answers)| && unconsumedPromises == old(unconsumedPromises)[1..]
      ensures failures == Failing(old(failures), err, false, old(unconsumedPromises), |emitted|, |answers|)
    {
      PendingFirst(answers, Rejected(err), 0);
      RejectAnswered(answers, emitted, failures, error, err, unconsumedPromises[0]);
      failures := failures[unconsumedPromises[0] := err];
      answers := answers[unconsumedPromises[0] := Rejected(err)];
      unconsumedPromises := unconsumedPromises[1..];
    }

    method Keep(err: Thrown<E>)
      requires Valid() && !listening
      modifies this`error, this`failures
      ensures Valid() && failures == Failing(old(failures), err, finished, [], |emitted|, |answers|)
    {
      LaterAnswered(answers, emitted, failures, finished, error, err);
      failures := Failing(failures, err, finished, [], |emitted|, |answers|);
      error := err;
    }

    /** The iterator's throw(), which takes nothing but errors. It stops listening without finishing. */
    method Throw(err: E)
      requires Valid()
      modifies this`error, this`listening, this`failures
      ensures Valid() && !listening
      ensures failures == old(failures)[Turn(|emitted|, |answers|) := Truthy(err)]
    {
      listening := false;
      Keep(Truthy(err));
    }

    /** As long as the iterator is not finished, events and calls never both wait. */
    method Waiting() returns (events: nat, calls: nat)
      requires Valid() && !finished
      ensures events == |unconsumedEvents| && calls == |unconsumedPromises|
      ensures events == 0 || calls == 0
    {
      if unconsumedPromises != [] { PendingFirst(answers, Done, 0); }
      events, calls := |unconsumedEvents|, |unconsumedPromises|;
    }

    /** The state holds no more than what can be seen. */
    lemma Seen()
      requires Valid()
      ensures answers == AnswersOf(Now())
      ensures !finished ==> unconsumedPromises == PendingCalls(AnswersOf(Now()))
    {}

    /** One thing that can happen. A handler that is no longer registered is not called. */
    method Step(a: Action<V, E>)
      requires Valid()
      modifies this
      ensures Valid() && Now() == After(old(Now()), a)
    {
      Seen();
      match a
      case Call => var call := Next();
      case Emit(args) => if listening { EventHandler(args); }
      case Error(err) => if listening { ErrorHandler(err); }
      case Abort(err) => if signalled { signalled := false; ErrorHandler(Truthy(err)); }
      case Finish => Return();
      case Fail(err) => Throw(err);
    }

    /**
     Every run: the actions alone determine what is emitted, who sees an error and how every
     call is answered; `emitted` grows by exactly the events that are heard.
     */
    method Run(actions: seq<Action<V, E>>)
      requires Valid()
      modifies this
      ensures Valid() && Now() == AfterAll(old(Now()), actions) && answers == AnswersOf(Now())
      ensures emitted == old(emitted) + Heard(actions, old(listening), old(signalled))
      ensures forall i :: 0 <= i < |answers| && i < |emitted| ==> answers[i] == Value(emitted[i])
      decreases |actions|
    {
      AllHeard(Now(), actions);
      if actions != [] {
        Step(actions[0]);
        Run(actions[1..]);
      }
      Seen();
    }
  }

  /** After an error event, calls beyond the events get the error once, and then are done. */
  method ErrorThenDone<V(==), E(==)>(it: Iterator<V, E>, err: E) returns (first: Answer<V, E>, second: Answer<V, E>)
    requires it.Valid() && it.listening && it.unconsumedEvents == [] && it.unconsumedPromises == []
    modifies it
    ensures first == Rejected(Truthy(err)) && second == Done
  {
    ghost var failures, turn := it.failures, Turn(|it.emitted|, |it.answers|);
    it.ErrorHandler(Truthy(err));
    var c := it.Next();
    first := it.answers[c];
    var d := it.Next();
    second := it.answers[d];
  }

  /** After throw(), they get the error once, and then wait: nobody is left who could answer, but return(). */
  method ThrowThenWaiting<V(==), E(==)>(it: Iterator<V, E>, err: E) returns (first: Answer<V, E>, second: Answer<V, E>)
    requires it.Valid() && it.listening && !it.signalled && it.unconsumedEvents == [] && it.unconsumedPromises == []
    modifies it
    ensures first == Rejected(Truthy(err)) && second == Pending
    ensures !it.finished && !it.listening && !it.signalled
  {
    it.Throw(err);
    var c := it.Next();
    first := it.answers[c];
    var d := it.Next();
    second := it.answers[d];
  }

  /** An abort of a finished iterator is seen by a call if and only if no settled promise is left to take it. */
  lemma LateAbort<V, E>(m: View<V, E>, err: E, c: nat)
    requires m.finished && m.signalled
    ensures var n := After(m, Abort(err));
            && n.finished && n.emitted == m.emitted && n.calls == m.calls && AnswersOf(n) == AnswersOf(m)
            && (c == Turn(|m.emitted|, m.calls) && m.stale == 0 ==>
                  Expected(n.emitted, n.failures, true, c) == Rejected(Truthy(err)))
            && (c != Turn(|m.emitted|, m.calls) || m.stale > 0 ==>
                  Expected(n.emitted, n.failures, true, c) == Expected(m.emitted, m.failures, true, c))
  {
    QueueBeyond(AnswersOf(m), m.emitted, m.failures, true);
  }

  /** An abort after return() is still heard: the next call is rejected, although the iterator was done. */
  method AbortAfterReturn<V(==), E(==)>(err: E) returns (first: Answer<V, E>, second: Answer<V, E>)
    ensures first == Rejected(Truthy(err)) && second == Done
  {
    var it := new Iterator<V, E>(true);
    it.Step(Finish);
    LateAbort(it.Now(), err, 0);
    it.Step(Abort(err));
    var c := it.Next();
    var d := it.Next();
    first, second := it.answers[c], it.answers[d];
  }

  /** If a call was waiting when return() settled it, the abort is lost on the promise of that call. */
  method AbortLost<V(==), E(==)>(err: E) returns (first: Answer<V, E>, second: Answer<V, E>)
    ensures first == Done && second == Done
  {
    var it := new Iterator<V, E>(true);
    var c := it.Next();
    it.Step(Finish);
    LateAbort(it.Now(), err, 1);
    it.Step(Abort(err));
    var d := it.Next();
    first, second := it.answers[c], it.answers[d];
  }

  /** An error that is falsy is seen by no call if none waits: the next one is done at once. */
  method FalsyThenDone<V(==), E(==)>(it: Iterator<V, E>) returns (first: Answer<V, E>)
    requires it.Valid() && it.listening && it.unconsumedEvents == [] && it.unconsumedPromises == []
    modifies it
    ensures first == Done
  {
    it.ErrorHandler(Falsy);
    var c := it.Next();
    first := it.answers[c];
  }
}
