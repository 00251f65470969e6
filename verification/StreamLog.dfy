/**
 What a byte stream may be seen to do: a log of events, replayed by an ideal pipe that only
 holds the bytes not yet delivered. A log that replays is one in which nothing is lost,
 doubled or reordered, and which ends properly.
 */
module StreamLog {
  import opened Options

  type Bytes = seq<bv8>

  datatype Event =
    | Asked                     // _read is called
    | Pushed(data: Bytes)       // a chunk is accepted at the back
    | Unshifted(data: Bytes)    // a chunk is accepted at the front
    | Nothing                   // a push that carries no bytes: an empty chunk, or a second null
    | Ended                     // the first push(null)
    | Data(data: Bytes)         // bytes handed out, by read() or by a direct 'data' event
    | EndEmitted                // the 'end' event

  datatype Ideal = Ideal(given: Bytes, pending: Bytes, ended: bool, over: bool, asked: bool)

  const Start := Ideal([], [], false, false, false)

  /** The ideal pipe refuses what must not happen. */
  function Next(s: Ideal, e: Event): Option<Ideal> {
    match e
    case Asked => if s.asked || s.ended then None else Some(s.(asked := true))
    case Pushed(d) => if s.ended || d == [] then None else Some(s.(pending := s.pending + d, asked := false))
    case Unshifted(d) => if s.over || d == [] then None else Some(s.(pending := d + s.pending))
    case Nothing => Some(s.(asked := false))
    case Ended => if s.ended then None else Some(s.(ended := true, asked := false))
    case Data(d) => if d == [] || !(d <= s.pending) then None
                    else Some(s.(given := s.given + d, pending := s.pending[|d|..]))
    case EndEmitted => if !s.ended || s.over || s.pending != [] then None else Some(s.(over := true))
  }

  function Replay(log: seq<Event>): Option<Ideal> {
    if log == [] then Some(Start)
    else
      var n := |log| - 1;
      var s := Replay(log[..n]);
      if s.None? then None else Next(s.value, log[n])
  }

  /** Everything handed out, in order. */
  function Delivered(log: seq<Event>): Bytes {
    if log == [] then []
    else
      var n := |log| - 1;
      Delivered(log[..n]) + if log[n].Data? then log[n].data else []
  }

  /** Everything accepted, in the order in which it has to be handed out. */
  function Accepted(log: seq<Event>): Bytes {
    if log == [] then []
    else
      var n := |log| - 1;
      AcceptedBy(Accepted(log[..n]), |Delivered(log[..n])|, log[n])
  }

  /** One more event: a chunk comes behind everything, or in front of what is not delivered yet. */
  function AcceptedBy(before: Bytes, delivered: nat, e: Event): Bytes {
    match e
    case Pushed(d) => before + d
    case Unshifted(d) => if delivered <= |before| then before[..delivered] + d + before[delivered..] else before
    case _ => before
  }

  lemma Grow(log: seq<Event>, e: Event)
    ensures Replay(log + [e]) == if Replay(log).None? then None else Next(Replay(log).value, e)
  {
    assert (log + [e])[..|log|] == log;
  }

  lemma AcceptedMore(log: seq<Event>, e: Event)
    ensures Accepted(log + [e]) == AcceptedBy(Accepted(log), |Delivered(log)|, e)
  {
    assert (log + [e])[..|log|] == log;
  }

  // ----- the log as it grows

  datatype Past = Nil | Then(before: Past, last: Event)

  function Events(p: Past): seq<Event> {
    if p.Nil? then [] else Events(p.before) + [p.last]
  }

  /** Where the ideal pipe is now. */
  function Now(p: Past): Option<Ideal> {
    if p.Nil? then Some(Start)
    else
      var s := Now(p.before);
      if s.None? then None else Next(s.value, p.last)
  }

  lemma {:induction false} NowReplays(p: Past)
    ensures Replay(Events(p)) == Now(p)
  {
    if p.Then? {
      NowReplays(p.before);
      Grow(Events(p.before), p.last);
    }
  }

  lemma {:induction false} ReplayPrefix(log: seq<Event>, i: nat)
    requires Replay(log).Some? && i <= |log|
    ensures Replay(log[..i]).Some?
  {
    if i < |log| {
      ReplayPrefix(log[..|log| - 1], i);
      assert log[..|log| - 1][..i] == log[..i];
    } else {
      assert log[..i] == log;
    }
  }

  // ----- conservation

  lemma PushKeeps(delivered: Bytes, pending: Bytes, accepted: Bytes, d: Bytes)
    requires delivered + pending == accepted
    ensures delivered + (pending + d) == accepted + d
  {}

  lemma UnshiftKeeps(delivered: Bytes, pending: Bytes, accepted: Bytes, d: Bytes)
    requires delivered + pending == accepted
    ensures delivered + (d + pending) == accepted[..|delivered|] + d + accepted[|delivered|..]
  {
    assert accepted[..|delivered|] == delivered && accepted[|delivered|..] == pending;
  }

  lemma DeliveryKeeps(delivered: Bytes, pending: Bytes, accepted: Bytes, d: Bytes)
    requires delivered + pending == accepted && d <= pending
    ensures (delivered + d) + pending[|d|..] == accepted
  {
    assert pending == d + pending[|d|..];
  }

  /** What was delivered, followed by what is pending, is what was accepted. */
  lemma {:induction false} Conservation(log: seq<Event>)
    requires Replay(log).Some?
    ensures Delivered(log) == Replay(log).value.given
    ensures Delivered(log) + Replay(log).value.pending == Accepted(log)
  {
    if log != [] {
      var n := |log| - 1;
      var init := log[..n];
      Conservation(init);
      var delivered, pending, accepted := Delivered(init), Replay(init).value.pending, Accepted(init);
      match log[n]
      case Pushed(d) => PushKeeps(delivered, pending, accepted, d);
      case Unshifted(d) => UnshiftKeeps(delivered, pending, accepted, d);
      case Data(d) => DeliveryKeeps(delivered, pending, accepted, d);
      case _ =>
    }
  }

  /** The pushes alone, in order. */
  function AllPushed(log: seq<Event>): Bytes {
    if log == [] then []
    else
      var n := |log| - 1;
      AllPushed(log[..n]) + if log[n].Pushed? then log[n].data else []
  }

  lemma {:induction false} PushesInOrder(log: seq<Event>)
    requires forall i :: 0 <= i < |log| ==> !log[i].Unshifted?
    ensures Accepted(log) == AllPushed(log)
  {
    if log != [] { PushesInOrder(log[..|log| - 1]); }
  }

  // ----- the end

  lemma {:induction false} OverStays(log: seq<Event>, i: nat)
    requires Replay(log).Some? && i < |log| && log[i] == EndEmitted
    ensures Replay(log).value.over && Replay(log).value.ended && Replay(log).value.pending == []
    ensures forall j :: i < j < |log| ==> log[j] == Nothing
  {
    var n := |log| - 1;
    if i < n {
      OverStays(log[..n], i);
      forall j | i < j < |log| ensures log[j] == Nothing {
        if j < n { assert log[..n][j] == log[j]; }
      }
    }
  }

  /** The 'end' at place i comes when everything accepted has been delivered, and nothing comes after it. */
  ghost predicate EndsAt(log: seq<Event>, i: nat)
    requires i < |log|
  {
    && Delivered(log[..i]) == Accepted(log[..i])
    && Delivered(log) == Accepted(log)
    && forall j :: i < j < |log| ==> log[j] == Nothing
  }

  lemma EndIsFinal(log: seq<Event>, i: nat)
    requires Replay(log).Some? && i < |log| && log[i] == EndEmitted
    ensures EndsAt(log, i)
  {
    ReplayPrefix(log, i + 1);
    assert log[..i + 1][..i] == log[..i];
    ReplayPrefix(log, i);
    Conservation(log[..i]);
    OverStays(log, i);
    Conservation(log);
  }

  // ----- one _read at a time

  predicate Answer(e: Event) {
    e.Pushed? || e.Nothing? || e.Ended?
  }

  /** No push answers _read from place i to place j. */
  ghost predicate Silent(log: seq<Event>, i: nat, j: nat) {
    forall k {:trigger Answer(log[k])} :: i < k < j && k < |log| ==> !Answer(log[k])
  }

  lemma {:induction false} AskedUntilAnswered(log: seq<Event>, i: nat)
    requires Replay(log).Some? && i < |log| && log[i] == Asked && Silent(log, i, |log|)
    ensures Replay(log).value.asked
  {
    var n := |log| - 1;
    if i < n {
      assert !Answer(log[n]);
      var init := log[..n];
      assert Silent(init, i, n) by {
        forall k | i < k < n ensures !Answer(init[k]) { assert !Answer(log[k]); }
      }
      AskedUntilAnswered(init, i);
    }
  }

  /** Between two calls of _read there is a push that answers the first. */
  lemma OneReadAtATime(log: seq<Event>, i: nat, j: nat)
    requires Replay(log).Some? && i < j < |log| && log[i] == Asked && log[j] == Asked
    ensures !Silent(log, i, j)
  {
    ReplayPrefix(log, j + 1);
    assert log[..j + 1][..j] == log[..j];
    if Silent(log, i, j) {
      var init := log[..j];
      assert Silent(init, i, j) by {
        forall k | i < k < j ensures !Answer(init[k]) { assert !Answer(log[k]); }
      }
      AskedUntilAnswered(init, i);
    }
  }
}
