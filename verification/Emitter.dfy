/**
 The listener table of an EventEmitter. A type with one listener maps to that listener, and
 only a type with several maps to an array; what it stands for is a map from types to
 sequences of listeners that are never empty.
 */
module Emitter {
  import opened Options

  /** A function: its identity, and its own `listener` property, which a once-wrapper has. */
  datatype Fn = Fn(id: int, listener: Option<int>)

  datatype Handlers = Single(fn: Fn) | Many(list: seq<Fn>)

  type Table<T> = map<T, Handlers>

  // ----- the simple form

  /** What removeListener looks for: the function itself, or a wrapper of it. */
  predicate Matches(f: Fn, target: Fn) {
    f.id == target.id || f.listener == Some(target.id)
  }

  predicate Occurs(list: seq<Fn>, target: Fn) {
    exists i :: 0 <= i < |list| && Matches(list[i], target)
  }

  /** Without the last listener that matches. */
  function WithoutLast(list: seq<Fn>, target: Fn): seq<Fn> {
    if list == [] then []
    else
      var n := |list| - 1;
      if Matches(list[n], target) then list[..n] else WithoutLast(list[..n], target) + [list[n]]
  }

  /** The listeners of one type, as they stand in a map of sequences. */
  function Of<T>(m: map<T, seq<Fn>>, t: T): seq<Fn> {
    if t in m then m[t] else []
  }

  function Put<T>(m: map<T, seq<Fn>>, t: T, list: seq<Fn>): map<T, seq<Fn>> {
    if list == [] then m - {t} else m[t := list]
  }

  function Add<T>(m: map<T, seq<Fn>>, t: T, f: Fn, prepend: bool): map<T, seq<Fn>> {
    Put(m, t, if prepend then [f] + Of(m, t) else Of(m, t) + [f])
  }

  function Remove<T>(m: map<T, seq<Fn>>, t: T, target: Fn): map<T, seq<Fn>> {
    Put(m, t, WithoutLast(Of(m, t), target))
  }

  // ----- what the table stands for

  function Listed(h: Handlers): seq<Fn> {
    match h
    case Single(f) => [f]
    case Many(list) => list
  }

  predicate Compact(h: Handlers) {
    h.Many? ==> |h.list| >= 2
  }

  ghost predicate WellFormed<T(!new)>(events: Table<T>, count: int) {
    count == |events| && forall t :: t in events ==> Compact(events[t])
  }

  function Meaning<T>(events: Table<T>): map<T, seq<Fn>> {
    map t | t in events :: Listed(events[t])
  }

  function Pack(list: seq<Fn>): Handlers
    requires list != []
  {
    if |list| == 1 then Single(list[0]) else Many(list)
  }

  lemma PackListed(list: seq<Fn>)
    requires list != []
    ensures Listed(Pack(list)) == list && Compact(Pack(list))
  {}

  lemma SetCount<T>(events: Table<T>, t: T, h: Handlers)
    ensures |events[t := h]| == if t in events then |events| else |events| + 1
  {
    var after := events[t := h];
    assert after.Keys == events.Keys + {t};
    if t in events { assert after.Keys == events.Keys; }
    assert |after| == |after.Keys| && |events| == |events.Keys|;
  }

  lemma SetMeaning<T(!new)>(events: Table<T>, count: int, t: T, list: seq<Fn>)
    requires WellFormed(events, count) && list != []
    ensures Meaning(events[t := Pack(list)]) == Put(Meaning(events), t, list)
    ensures WellFormed(events[t := Pack(list)], if t in events then count else count + 1)
  {
    PackListed(list);
    SetCount(events, t, Pack(list));
  }

  lemma DropMeaning<T(!new)>(events: Table<T>, count: int, t: T)
    requires WellFormed(events, count) && t in events
    ensures Meaning(events - {t}) == Put(Meaning(events), t, [])
    ensures WellFormed(events - {t}, count - 1)
  {
    assert (events - {t}).Keys == events.Keys - {t};
    assert |events - {t}| == |(events - {t}).Keys| && |events| == |events.Keys|;
  }

  /** The last key gone, the table is empty. */
  lemma NoneLeft<T(!new)>(events: Table<T>, t: T)
    requires t in events && |events| == 1
    ensures events - {t} == map[]
  {
    assert |events| == |events.Keys| && |events.Keys - {t}| == 0;
    assert (events - {t}).Keys == events.Keys - {t};
  }

  lemma {:induction false} WithoutLastAt(list: seq<Fn>, target: Fn, i: nat)
    requires i < |list| && Matches(list[i], target)
    requires forall j :: i < j < |list| ==> !Matches(list[j], target)
    ensures WithoutLast(list, target) == list[..i] + list[i + 1..]
  {
    var n := |list| - 1;
    if i < n {
      assert !Matches(list[n], target);
      var init := list[..n];
      forall j | i < j < n ensures !Matches(init[j], target) { assert init[j] == list[j]; }
      WithoutLastAt(init, target, i);
      assert init[..i] == list[..i] && list[i + 1..] == init[i + 1..] + [list[n]];
    }
  }

  lemma {:induction false} WithoutNone(list: seq<Fn>, target: Fn)
    requires !Occurs(list, target)
    ensures WithoutLast(list, target) == list
  {
    if list != [] {
      var n := |list| - 1;
      assert !Matches(list[n], target);
      forall i | 0 <= i < n ensures !Matches(list[..n][i], target) { assert list[..n][i] == list[i]; }
      WithoutNone(list[..n], target);
    }
  }

  lemma WithoutItself(list: seq<Fn>, i: nat)
    requires i < |list|
    ensures WithoutLast(list[..i + 1], list[i]) == list[..i]
  {
    WithoutLastAt(list[..i + 1], list[i], i);
  }

  /** Removing a listener takes back adding it, as itself or as the wrapper that `once` makes of it. */
  lemma RemoveUndoesAdd<T>(m: map<T, seq<Fn>>, t: T, f: Fn, target: Fn)
    requires Matches(f, target) && (t in m ==> m[t] != [])
    ensures Remove(Add(m, t, f, false), t, target) == m
  {
    var list := Of(m, t) + [f];
    WithoutLastAt(list, target, |list| - 1);
    assert WithoutLast(list, target) == Of(m, t);
    assert t !in m ==> m[t := list] - {t} == m;
  }

  /** What `listeners` shows are the functions that were passed, to `on` or to `once`. */
  lemma UnwrappedIsPassed(wrapper: int, listener: int)
    ensures Unwrapped(Fn(listener, None)) == Unwrapped(Fn(wrapper, Some(listener))) == listener
  {}

  /** Adding puts the listener at one end; nothing else changes. */
  lemma AddedWhere<T>(m: map<T, seq<Fn>>, t: T, f: Fn, t': T)
    ensures Of(Add(m, t, f, false), t) == Of(m, t) + [f] && Of(Add(m, t, f, true), t) == [f] + Of(m, t)
    ensures t' != t ==> Of(Add(m, t, f, false), t') == Of(Add(m, t, f, true), t') == Of(m, t')
  {}

  /** Removing takes the last listener that is the function, or wraps it, and nothing else. */
  lemma RemovedWhich<T>(m: map<T, seq<Fn>>, t: T, target: Fn, t': T)
    ensures t' != t ==> Of(Remove(m, t, target), t') == Of(m, t')
    ensures (forall i :: 0 <= i < |Of(m, t)| ==> Of(m, t)[i].id != target.id && Of(m, t)[i].listener != Some(target.id)) ==>
              Of(Remove(m, t, target), t) == Of(m, t)
    ensures var list := Of(m, t);
            forall i ::
              (0 <= i < |list| && (list[i].id == target.id || list[i].listener == Some(target.id)) &&
               forall j :: i < j < |list| ==> list[j].id != target.id && list[j].listener != Some(target.id))
              ==> Of(Remove(m, t, target), t) == list[..i] + list[i + 1..]
  {
    var list := Of(m, t);
    if !Occurs(list, target) { WithoutNone(list, target); }
    forall i | 0 <= i < |list| && Matches(list[i], target) && (forall j :: i < j < |list| ==> !Matches(list[j], target))
      ensures WithoutLast(list, target) == list[..i] + list[i + 1..]
    {
      WithoutLastAt(list, target, i);
    }
  }

  /** A listener added by `once` is shown as the function that was passed. */
  method OnceShown<T(==, !new)>(e: EventEmitter<T>, t: T, wrapper: int, listener: int) returns (ids: seq<int>)
    requires e.Valid()
    modifies e
    ensures |ids| == |Of(old(e.Contents()), t)| + 1 && ids[|ids| - 1] == listener
  {
    e.AddListener(t, Fn(wrapper, Some(listener)), false);
    ids := e.Listeners(t);
  }

  // ----- series of calls

  datatype Action<+T> =
    | On(t: T, f: Fn, prepend: bool)
    | Once(t: T, wrapper: int, listener: int, prepend: bool)    // `wrapper` is made of `listener`
    | Off(t: T, target: Fn)
    | OffAll(types: Option<T>)

  function Effect<T>(m: map<T, seq<Fn>>, a: Action<T>): map<T, seq<Fn>> {
    match a
    case On(t, f, prepend) => Add(m, t, f, prepend)
    case Once(t, wrapper, listener, prepend) => Add(m, t, Fn(wrapper, Some(listener)), prepend)
    case Off(t, target) => Remove(m, t, target)
    case OffAll(types) => if types.None? then map[] else Put(m, types.value, [])
  }

  function EffectAll<T>(m: map<T, seq<Fn>>, actions: seq<Action<T>>): map<T, seq<Fn>>
    decreases |actions|
  {
    if actions == [] then m else EffectAll(Effect(m, actions[0]), actions[1..])
  }

  ghost predicate NoEmptyType<T(!new)>(m: map<T, seq<Fn>>) {
    forall t :: t in m ==> m[t] != []
  }

  lemma {:induction false} EffectAllTwice<T>(m: map<T, seq<Fn>>, first: seq<Action<T>>, second: seq<Action<T>>)
    ensures EffectAll(m, first + second) == EffectAll(EffectAll(m, first), second)
    decreases |first|
  {
    if first == [] {
      assert first + second == second;
    } else {
      assert (first + second)[1..] == first[1..] + second;
      EffectAllTwice(Effect(m, first[0]), first[1..], second);
    }
  }

  /** What the calls for one type, and those for all types, make of its listeners. */
  function OneList<T(==)>(list: seq<Fn>, a: Action<T>, t: T): seq<Fn> {
    match a
    case On(t', f, prepend) => if t' != t then list else if prepend then [f] + list else list + [f]
    case Once(t', wrapper, listener, prepend) =>
      if t' != t then list
      else if prepend then [Fn(wrapper, Some(listener))] + list else list + [Fn(wrapper, Some(listener))]
    case Off(t', target) => if t' != t then list else WithoutLast(list, target)
    case OffAll(types) => if types == None || types == Some(t) then [] else list
  }

  function OneListAll<T(==)>(list: seq<Fn>, actions: seq<Action<T>>, t: T): seq<Fn>
    decreases |actions|
  {
    if actions == [] then list else OneListAll(OneList(list, actions[0], t), actions[1..], t)
  }

  /** Types do not interfere. */
  lemma {:induction false} EachTypeAlone<T>(m: map<T, seq<Fn>>, actions: seq<Action<T>>, t: T)
    ensures Of(EffectAll(m, actions), t) == OneListAll(Of(m, t), actions, t)
    decreases |actions|
  {
    if actions != [] {
      assert Of(Effect(m, actions[0]), t) == OneList(Of(m, t), actions[0], t);
      EachTypeAlone(Effect(m, actions[0]), actions[1..], t);
    }
  }

  /** The removals that take back some additions: the last one first. */
  function Undoing<T>(adds: seq<Action<T>>): seq<Action<T>>
    requires Appending(adds)
  {
    if adds == [] then [] else Undoing(adds[1..]) + [Off(adds[0].t, Target(adds[0]))]
  }

  predicate Appending<T>(actions: seq<Action<T>>) {
    forall i :: 0 <= i < |actions| ==> (actions[i].On? || actions[i].Once?) && !actions[i].prepend
  }

  /** The function that the caller passed. */
  function Target<T>(a: Action<T>): Fn
    requires a.On? || a.Once?
  {
    if a.On? then a.f else Fn(a.listener, None)
  }

  /** Any listeners that were appended can be removed again in the opposite order, by the functions that were passed. */
  lemma {:induction false} RemovalsUndoAdds<T(!new)>(m: map<T, seq<Fn>>, adds: seq<Action<T>>)
    requires Appending(adds) && NoEmptyType(m)
    ensures EffectAll(EffectAll(m, adds), Undoing(adds)) == m
    decreases |adds|
  {
    if adds != [] {
      var a, rest := adds[0], adds[1..];
      var off := Off(a.t, Target(a));
      var after := Effect(m, a);
      RemovalsUndoAdds(after, rest);
      EffectAllTwice(EffectAll(m, adds), Undoing(rest), [off]);
      assert EffectAll(after, [off]) == Effect(after, off);
      RemoveUndoesAdd(m, a.t, if a.On? then a.f else Fn(a.wrapper, Some(a.listener)), Target(a));
    }
  }

  /** Shifts everything behind `index` forward and drops the last. */
  method SpliceOne(list: seq<Fn>, index: nat) returns (rest: seq<Fn>)
    requires index < |list|
    ensures rest == list[..index] + list[index + 1..]
  {
    rest := list;
    var i := index;
    while i + 1 < |rest|
      invariant index <= i < |rest| == |list|
      invariant forall j :: 0 <= j < index ==> rest[j] == list[j]
      invariant forall j :: index <= j < i ==> rest[j] == list[j + 1]
      invariant forall j :: i <= j < |list| ==> rest[j] == list[j]
    {
      rest := rest[i := rest[i + 1]];
      i := i + 1;
    }
    rest := rest[..|rest| - 1];
  }

  /** The loop from the end: the place of the last match, or -1. */
  method LastPosition(list: seq<Fn>, target: Fn) returns (position: int)
    ensures -1 <= position < |list|
    ensures position >= 0 ==> Matches(list[position], target)
    ensures forall j :: position < j < |list| ==> !Matches(list[j], target)
  {
    position := -1;
    var i := |list| - 1;
    while i >= 0
      invariant -1 <= i < |list| && position == -1
      invariant forall j :: i < j < |list| ==> !Matches(list[j], target)
    {
      if list[i].id == target.id || list[i].listener == Some(target.id) {
        position := i;
        break;
      }
      i := i - 1;
    }
  }

  /** What `listeners` shows of a function: what it wraps, if it is a wrapper. */
  function Unwrapped(f: Fn): int {
    if f.listener.Some? then f.listener.value else f.id
  }

  class EventEmitter<T(==,!new)> {
    var events: Option<Table<T>>     // _events, None when undefined
    var eventsCount: int
    const removal: T                 // the type "removeListener"

    ghost predicate Valid()
      reads this
    {
      events.Some? ==> WellFormed(events.value, eventsCount)
    }

    ghost function Contents(): map<T, seq<Fn>>
      reads this
    {
      if events.Some? then Meaning(events.value) else map[]
    }

    constructor (removeListener: T)
      ensures Valid() && Contents() == map[]
    {
      removal := removeListener;
      events, eventsCount := Some(map[]), 0;
    }

    method AddListener(t: T, f: Fn, prepend: bool)
      requires Valid()
      modifies this
      ensures Valid() && Contents() == Add(old(Contents()), t, f, prepend)
    {
      if events.None? { events, eventsCount := Some(map[]), 0; }
      var table := events.value;
      if t !in table {
        assert [f] + [] == [f] && [] + [f] == [f];
        SetMeaning(table, eventsCount, t, [f]);
        events := Some(table[t := Single(f)]);
        eventsCount := eventsCount + 1;
      } else {
        var existing := table[t];
        var list :=
          match existing
          case Single(g) => if prepend then [f, g] else [g, f]
          case Many(gs) => if prepend then [f] + gs else gs + [f];
        assert list == if prepend then [f] + Listed(existing) else Listed(existing) + [f];
        SetMeaning(table, eventsCount, t, list);
        events := Some(table[t := Many(list)]);
      }
    }

    /** Exactly the last matching listener goes, if any, and a type without listeners is no key. */
    method RemoveListener(t: T, target: Fn)
      requires Valid()
      modifies this
      ensures Valid() && Contents() == Remove(old(Contents()), t, target)
    {
      if events.None? || t !in events.value { return; }
      var table := events.value;
      match table[t]
      case Single(g) =>
        if g.id == target.id || g.listener == Some(target.id) {
          WithoutLastAt([g], target, 0);
          DropType(t);
        } else {
          WithoutNone([g], target);
        }
      case Many(list) =>
        var position := LastPosition(list, target);
        if position < 0 {
          WithoutNone(list, target);
          return;
        }
        WithoutLastAt(list, target, position);
        var rest;
        if position == 0 { rest := list[1..]; } else { rest := SpliceOne(list, position); }
        assert rest == WithoutLast(list, target);
        SetMeaning(table, eventsCount, t, rest);
        events := Some(table[t := if |rest| == 1 then Single(rest[0]) else Many(rest)]);
    }

    /** The type's last listener is gone. */
    method DropType(t: T)
      requires Valid() && events.Some? && t in events.value
      modifies this
      ensures Valid() && events.Some? && events.value == old(events.value) - {t}
      ensures Contents() == Put(old(Contents()), t, [])
    {
      var table := events.value;
      DropMeaning(table, eventsCount, t);
      eventsCount := eventsCount - 1;
      if eventsCount == 0 {
        NoneLeft(table, t);
        events := Some(map[]);
      } else {
        events := Some(table - {t});
      }
    }

    /** All listeners of one type, or of all, whether or not anyone listens to removals. */
    method RemoveAllListeners(t: Option<T>)
      requires Valid()
      modifies this
      ensures Valid() && Contents() == if t.None? then map[] else Put(old(Contents()), t.value, [])
      decreases if t.None? then 1 else 0
    {
      if events.None? { return; }
      if removal !in events.value {
        if t.None? {
          events, eventsCount := Some(map[]), 0;
        } else if t.value in events.value {
          DropType(t.value);
        }
        return;
      }
      if t.None? {
        var keys := events.value.Keys - {removal};
        while keys != {}
          invariant Valid()
        {
          var key :| key in keys;
          keys := keys - {key};
          RemoveAllListeners(Some(key));
        }
        RemoveAllListeners(Some(removal));
        events, eventsCount := Some(map[]), 0;
      } else if t.value in events.value {
        RemoveEach(t.value);
      }
    }

    /** One by one, from the last; the array shrinks meanwhile. */
    method RemoveEach(t: T)
      requires Valid() && events.Some? && t in events.value
      modifies this
      ensures Valid() && Contents() == Put(old(Contents()), t, [])
    {
      match events.value[t]
      case Single(f) =>
        WithoutLastAt([f], f, 0);
        RemoveListener(t, f);
      case Many(list) =>
        assert list[..|list|] == list;
        var i := |list| - 1;
        while i >= 0
          invariant -1 <= i < |list| && Valid()
          invariant Contents() == Put(old(Contents()), t, list[..i + 1])
        {
          WithoutItself(list, i);
          RemoveListener(t, list[i]);
          i := i - 1;
        }
    }

    method Step(a: Action<T>)
      requires Valid()
      modifies this
      ensures Valid() && Contents() == Effect(old(Contents()), a)
    {
      if a.On? {
        AddListener(a.t, a.f, a.prepend);
      } else if a.Once? {
        AddListener(a.t, Fn(a.wrapper, Some(a.listener)), a.prepend);
      } else if a.Off? {
        RemoveListener(a.t, a.target);
      } else {
        RemoveAllListeners(a.types);
      }
    }

    /**
     Every series of calls does to the table what it does to a map of sequences: the listeners of
     each type are what the calls for that type alone make of them, and no type is left empty.
     */
    method Run(actions: seq<Action<T>>)
      requires Valid()
      modifies this
      ensures Valid() && Contents() == EffectAll(old(Contents()), actions) && NoEmptyType(Contents())
      ensures forall t :: Of(Contents(), t) == OneListAll(Of(old(Contents()), t), actions, t)
      decreases |actions|
    {
      ghost var before := Contents();
      forall t ensures Of(EffectAll(before, actions), t) == OneListAll(Of(before, t), actions, t) {
        EachTypeAlone(before, actions, t);
      }
      if actions != [] {
        Step(actions[0]);
        Run(actions[1..]);
      }
    }

    method RawListeners(t: T) returns (list: seq<Fn>)
      requires Valid()
      ensures list == Of(Contents(), t)
    {
      if events.None? || t !in events.value { return []; }
      match events.value[t]
      case Single(f) => list := [f];
      case Many(fs) => list := fs;
    }

    method Listeners(t: T) returns (ids: seq<int>)
      requires Valid()
      ensures |ids| == |Of(Contents(), t)|
      ensures forall i :: 0 <= i < |ids| ==> ids[i] == Unwrapped(Of(Contents(), t)[i])
    {
      if events.None? || t !in events.value { return []; }
      match events.value[t]
      case Single(f) => ids := [Unwrapped(f)];
      case Many(fs) =>
        ids := [];
        var i := 0;
        while i < |fs|
          invariant 0 <= i == |ids| <= |fs|
          invariant forall j :: 0 <= j < i ==> ids[j] == Unwrapped(fs[j])
        {
          ids := ids + [if fs[i].listener.Some? then fs[i].listener.value else fs[i].id];
          i := i + 1;
        }
    }

    method ListenerCount(t: T) returns (n: nat)
      requires Valid()
      ensures n == |Of(Contents(), t)|
    {
      if events.None? || t !in events.value { return 0; }
      match events.value[t]
      case Single(_) => n := 1;
      case Many(fs) => n := |fs|;
    }

    /** The types that have listeners. */
    method EventNames() returns (names: set<T>)
      requires Valid()
      ensures names == Contents().Keys
    {
      names := if events.Some? && eventsCount > 0 then events.value.Keys else {};
    }
  }
}
