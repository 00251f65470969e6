/**
 Acyclic JavaScript values, as far as strict deep equality looks at them, and the relation
 that it decides: equality of everything except identity, where the members of a Set and
 the entries of a Map count in any order.
 */
module DeepValue {
  import opened Pairing

  datatype Num = NaN | NegZero | Finite(r: real) | Infinity(negative: bool)

  /** Everything compared without looking inside; functions go by identity. */
  datatype Primitive =
    | Undefined | Null | Boolean(b: bool) | Number(n: Num) | Text(s: string)
    | BigInt(i: int) | Symbol(symbol: nat) | Function(f: nat)

  datatype Key = Name(name: string) | SymbolKey(symbol: nat)

  datatype Property = Property(key: Key, value: Value)

  datatype Entry = Entry(key: Value, value: Value)

  datatype Body =
    | Plain
    | Arr(items: seq<Value>)
    | SetOf(members: seq<Value>)
    | MapOf(entries: seq<Entry>)

  /**
   `id` is what `===` looks at, so two values are the same object exactly when they are
   equal as values of this type. `props` are the own enumerable properties (for an array
   without its indices), `hidden` the own symbols that are not enumerable.
   */
  datatype Value =
    | Prim(p: Primitive)
    | Obj(id: nat, proto: nat, props: seq<Property>, hidden: seq<nat>, body: Body)

  predicate IsObject(v: Value) { v.Obj? }

  // ----- what the host guarantees about Sets, Maps and property lists

  ghost predicate DistinctMembers(xs: seq<Value>) {
    forall i, j :: 0 <= i < j < |xs| ==> xs[i] != xs[j]
  }

  ghost predicate DistinctKeys(es: seq<Entry>) {
    forall i, j :: 0 <= i < j < |es| ==> es[i].key != es[j].key
  }

  ghost predicate DistinctProps(ps: seq<Property>) {
    forall i, j :: 0 <= i < j < |ps| ==> ps[i].key != ps[j].key
  }

  ghost predicate HiddenApart(ps: seq<Property>, hidden: seq<nat>) {
    && (forall i, j :: 0 <= i < j < |hidden| ==> hidden[i] != hidden[j])
    && (forall i :: 0 <= i < |ps| && ps[i].key.SymbolKey? ==> ps[i].key.symbol !in hidden)
  }

  const MinusZero := Prim(Number(NegZero))

  /** Sets and Maps keep no two same keys and turn -0 into 0; no object has a property twice. */
  ghost predicate WellFormed(v: Value) {
    match v
    case Prim(_) => true
    case Obj(_, _, props, hidden, body) =>
      && DistinctProps(props) && HiddenApart(props, hidden)
      && (forall i :: 0 <= i < |props| ==> WellFormed(props[i].value))
      && match body
         case Plain => true
         case Arr(xs) => forall i :: 0 <= i < |xs| ==> WellFormed(xs[i])
         case SetOf(xs) =>
           DistinctMembers(xs) && forall i :: 0 <= i < |xs| ==> WellFormed(xs[i]) && xs[i] != MinusZero
         case MapOf(es) =>
           DistinctKeys(es) &&
           forall i :: 0 <= i < |es| ==> WellFormed(es[i].key) && WellFormed(es[i].value) && es[i].key != MinusZero
  }

  /** v and everything in it. */
  ghost function Parts(v: Value): set<Value> {
    match v
    case Prim(_) => {v}
    case Obj(_, _, props, _, body) =>
      {v} + (set i, x | 0 <= i < |props| && x in Parts(props[i].value) :: x) +
      match body
      case Plain => {}
      case Arr(xs) => set i, x | 0 <= i < |xs| && x in Parts(xs[i]) :: x
      case SetOf(xs) => set i, x | 0 <= i < |xs| && x in Parts(xs[i]) :: x
      case MapOf(es) =>
        (set i, x | 0 <= i < |es| && x in Parts(es[i].key) :: x) +
        (set i, x | 0 <= i < |es| && x in Parts(es[i].value) :: x)
  }

  // ----- the relation

  function Keys(ps: seq<Property>): set<Key> {
    set i | 0 <= i < |ps| :: ps[i].key
  }

  ghost predicate Bijection(m: map<int, int>, n: nat) {
    m.Keys == Range(n) && Onto(m, Range(n)) && Injective(m)
  }

  /** Deep equality; the `===` shortcut of the code is not in it, it follows from reflexivity. */
  ghost predicate Equal(v: Value, w: Value)
    decreases v
  {
    match v
    case Prim(_) => v == w
    case Obj(_, _, _, _, _) =>
      w.Obj? && v.proto == w.proto && PropsEqual(v.props, w.props) && BodiesEqual(v.body, w.body)
  }

  ghost predicate PropsEqual(ps: seq<Property>, qs: seq<Property>)
    decreases ps
  {
    && Keys(ps) == Keys(qs)
    && forall i, j {:trigger ValuesEqual(ps[i], qs[j])} :: 0 <= i < |ps| && 0 <= j < |qs| && ps[i].key == qs[j].key ==> ValuesEqual(ps[i], qs[j])
  }

  ghost predicate ValuesEqual(p: Property, q: Property)
    decreases p
  {
    Equal(p.value, q.value)
  }

  ghost predicate BodiesEqual(b: Body, c: Body)
    decreases b
  {
    match b
    case Plain => c.Plain?
    case Arr(xs) => c.Arr? && |xs| == |c.items| && forall i :: 0 <= i < |xs| ==> Equal(xs[i], c.items[i])
    case SetOf(xs) => c.SetOf? && |xs| == |c.members| && MembersEqual(xs, c.members)
    case MapOf(es) => c.MapOf? && |es| == |c.entries| && EntriesEqual(es, c.entries)
  }

  /** Some one-to-one pairing gives every member a deep-equal partner. */
  ghost predicate MembersEqual(xs: seq<Value>, ys: seq<Value>)
    requires |xs| == |ys|
    decreases xs, 1
  {
    exists m: map<int, int> {:trigger Bijection(m, |xs|)} :: Bijection(m, |xs|) && MembersPaired(m, xs, ys)
  }

  ghost predicate EntriesEqual(es: seq<Entry>, fs: seq<Entry>)
    requires |es| == |fs|
    decreases es, 1
  {
    exists m: map<int, int> {:trigger Bijection(m, |es|)} :: Bijection(m, |es|) && EntriesPaired(m, es, fs)
  }

  /** m is a one-to-one pairing of all of xs with all of ys, each with a deep-equal partner. */
  ghost predicate MembersPaired(m: map<int, int>, xs: seq<Value>, ys: seq<Value>)
    requires |xs| == |ys|
    decreases xs, 0
  {
    && Bijection(m, |xs|)
    && forall i {:trigger m[i]} :: 0 <= i < |xs| ==> i in m && 0 <= m[i] < |ys| && Equal(xs[i], ys[m[i]])
  }

  ghost predicate EntriesPaired(m: map<int, int>, es: seq<Entry>, fs: seq<Entry>)
    requires |es| == |fs|
    decreases es, 0
  {
    && Bijection(m, |es|)
    && forall i {:trigger m[i]} :: 0 <= i < |es| ==> i in m && 0 <= m[i] < |fs| && EntryEqual(es[i], fs[m[i]])
  }

  ghost predicate EntryEqual(e: Entry, f: Entry)
    decreases e
  {
    Equal(e.key, f.key) && Equal(e.value, f.value)
  }

  /** Which members of xs are deep-equal to which of ys. */
  ghost function EqualPairs(xs: seq<Value>, ys: seq<Value>): (r: Relation)
    ensures forall i, j {:trigger Related(r, i, j)} :: Related(r, i, j) <==> 0 <= i < |xs| && 0 <= j < |ys| && Equal(xs[i], ys[j])
  {
    set i, j | 0 <= i < |xs| && 0 <= j < |ys| && Equal(xs[i], ys[j]) :: (i, j)
  }

  ghost function EntryPairs(es: seq<Entry>, fs: seq<Entry>): (r: Relation)
    ensures forall i, j {:trigger Related(r, i, j)} :: Related(r, i, j) <==> 0 <= i < |es| && 0 <= j < |fs| && EntryEqual(es[i], fs[j])
  {
    set i, j | 0 <= i < |es| && 0 <= j < |fs| && EntryEqual(es[i], fs[j]) :: (i, j)
  }

  ghost predicate SetsEqual(xs: seq<Value>, ys: seq<Value>) {
    |xs| == |ys| && CanPair(EqualPairs(xs, ys), Range(|xs|), Range(|ys|))
  }

  ghost predicate MapsEqual(es: seq<Entry>, fs: seq<Entry>) {
    |es| == |fs| && CanPair(EntryPairs(es, fs), Range(|es|), Range(|fs|))
  }

  lemma MembersArePairs(m: map<int, int>, xs: seq<Value>, ys: seq<Value>)
    requires |xs| == |ys| && MembersPaired(m, xs, ys)
    ensures Pairs(m, EqualPairs(xs, ys), Range(|xs|), Range(|ys|))
  {
    var r := EqualPairs(xs, ys);
    forall i | i in m ensures Related(r, i, m[i]) {
      assert i in Range(|xs|);
      assert 0 <= m[i] < |ys| && Equal(xs[i], ys[m[i]]);
    }
  }

  lemma PairsAreMembers(m: map<int, int>, xs: seq<Value>, ys: seq<Value>)
    requires |xs| == |ys| && Pairs(m, EqualPairs(xs, ys), Range(|xs|), Range(|ys|))
    ensures MembersPaired(m, xs, ys)
  {
    forall i | 0 <= i < |xs| ensures i in m && 0 <= m[i] < |ys| && Equal(xs[i], ys[m[i]]) {
      assert i in m.Keys;
      assert Related(EqualPairs(xs, ys), i, m[i]);
    }
  }

  lemma SetsEqualIsPairing(xs: seq<Value>, ys: seq<Value>)
    requires |xs| == |ys|
    ensures SetsEqual(xs, ys) <==> MembersEqual(xs, ys)
  {
    if SetsEqual(xs, ys) {
      var m :| Pairs(m, EqualPairs(xs, ys), Range(|xs|), Range(|ys|));
      PairsAreMembers(m, xs, ys);
      assert MembersEqual(xs, ys);
    }
    if MembersEqual(xs, ys) {
      var m: map<int, int> :| Bijection(m, |xs|) && MembersPaired(m, xs, ys);
      MembersArePairs(m, xs, ys);
      assert CanPair(EqualPairs(xs, ys), Range(|xs|), Range(|ys|));
    }
  }

  lemma EntriesArePairs(m: map<int, int>, es: seq<Entry>, fs: seq<Entry>)
    requires |es| == |fs| && EntriesPaired(m, es, fs)
    ensures Pairs(m, EntryPairs(es, fs), Range(|es|), Range(|fs|))
  {
    var r := EntryPairs(es, fs);
    forall i | i in m ensures Related(r, i, m[i]) {
      assert i in Range(|es|);
      assert 0 <= m[i] < |fs| && EntryEqual(es[i], fs[m[i]]);
    }
  }

  lemma PairsAreEntries(m: map<int, int>, es: seq<Entry>, fs: seq<Entry>)
    requires |es| == |fs| && Pairs(m, EntryPairs(es, fs), Range(|es|), Range(|fs|))
    ensures EntriesPaired(m, es, fs)
  {
    forall i | 0 <= i < |es| ensures i in m && 0 <= m[i] < |fs| && EntryEqual(es[i], fs[m[i]]) {
      assert i in m.Keys;
      assert Related(EntryPairs(es, fs), i, m[i]);
    }
  }

  lemma MapsEqualIsPairing(es: seq<Entry>, fs: seq<Entry>)
    requires |es| == |fs|
    ensures MapsEqual(es, fs) <==> EntriesEqual(es, fs)
  {
    if MapsEqual(es, fs) {
      var m :| Pairs(m, EntryPairs(es, fs), Range(|es|), Range(|fs|));
      PairsAreEntries(m, es, fs);
      assert EntriesEqual(es, fs);
    }
    if EntriesEqual(es, fs) {
      var m: map<int, int> :| Bijection(m, |es|) && EntriesPaired(m, es, fs);
      EntriesArePairs(m, es, fs);
      assert CanPair(EntryPairs(es, fs), Range(|es|), Range(|fs|));
    }
  }

  // ----- what it demands of the parts

  /** Primitives are compared as by Object.is: NaN is NaN, and -0 is not 0. */
  lemma EqualPrimitives(v: Value, w: Value)
    ensures v.Prim? || w.Prim? ==> (Equal(v, w) <==> v == w)
    ensures Equal(Prim(Number(NaN)), Prim(Number(NaN))) && !Equal(Prim(Number(NegZero)), Prim(Number(Finite(0.0))))
  {}

  /** Plain objects: the same prototype, the same keys, and equal values under every key. */
  lemma EqualObjects(v: Value, w: Value)
    requires v.Obj? && w.Obj? && v.body.Plain?
    ensures Equal(v, w) <==>
            && w.body.Plain? && v.proto == w.proto && Keys(v.props) == Keys(w.props)
            && forall i, j :: 0 <= i < |v.props| && 0 <= j < |w.props| && v.props[i].key == w.props[j].key ==>
                 Equal(v.props[i].value, w.props[j].value)
  {
    PropsByKey(v.props, w.props);
  }

  lemma PropsByKey(ps: seq<Property>, qs: seq<Property>)
    ensures PropsEqual(ps, qs) <==>
            && Keys(ps) == Keys(qs)
            && forall i, j :: 0 <= i < |ps| && 0 <= j < |qs| && ps[i].key == qs[j].key ==> Equal(ps[i].value, qs[j].value)
  {
    if PropsEqual(ps, qs) {
      forall i, j | 0 <= i < |ps| && 0 <= j < |qs| && ps[i].key == qs[j].key ensures Equal(ps[i].value, qs[j].value) {
        assert ValuesEqual(ps[i], qs[j]);
      }
    }
  }

  /** Arrays: besides, as many items, and equal ones at every index. */
  lemma EqualArrays(v: Value, w: Value)
    requires v.Obj? && w.Obj? && v.body.Arr?
    ensures Equal(v, w) <==>
            && w.body.Arr? && v.proto == w.proto && Keys(v.props) == Keys(w.props)
            && (forall i, j :: 0 <= i < |v.props| && 0 <= j < |w.props| && v.props[i].key == w.props[j].key ==>
                  Equal(v.props[i].value, w.props[j].value))
            && |v.body.items| == |w.body.items|
            && forall i :: 0 <= i < |v.body.items| ==> Equal(v.body.items[i], w.body.items[i])
  {
    PropsByKey(v.props, w.props);
  }

  lemma MembersByPairing(xs: seq<Value>, ys: seq<Value>)
    requires |xs| == |ys|
    ensures MembersEqual(xs, ys) <==>
            exists m: map<int, int> {:trigger Bijection(m, |xs|)} ::
              Bijection(m, |xs|) && forall i :: 0 <= i < |xs| ==> i in m && 0 <= m[i] < |ys| && Equal(xs[i], ys[m[i]])
  {
    hide Bijection, Equal;
    if m: map<int, int> :| Bijection(m, |xs|) && forall i :: 0 <= i < |xs| ==> i in m && 0 <= m[i] < |ys| && Equal(xs[i], ys[m[i]]) {
      assert MembersPaired(m, xs, ys);
    }
  }

  lemma EntryPairing(m: map<int, int>, es: seq<Entry>, fs: seq<Entry>)
    requires |es| == |fs|
    ensures EntriesPaired(m, es, fs) <==>
            && Bijection(m, |es|)
            && forall i :: 0 <= i < |es| ==>
                 i in m && 0 <= m[i] < |fs| && Equal(es[i].key, fs[m[i]].key) && Equal(es[i].value, fs[m[i]].value)
  {
    hide Equal, Onto, Injective;
    if EntriesPaired(m, es, fs) {
      forall i | 0 <= i < |es|
        ensures i in m && 0 <= m[i] < |fs| && Equal(es[i].key, fs[m[i]].key) && Equal(es[i].value, fs[m[i]].value)
      {
        assert i in Range(|es|);
        assert 0 <= m[i] < |fs| && EntryEqual(es[i], fs[m[i]]);
      }
    }
  }

  lemma EntriesByPairing(es: seq<Entry>, fs: seq<Entry>)
    requires |es| == |fs|
    ensures EntriesEqual(es, fs) <==>
            exists m: map<int, int> {:trigger Bijection(m, |es|)} ::
              Bijection(m, |es|) &&
              forall i :: 0 <= i < |es| ==>
                i in m && 0 <= m[i] < |fs| && Equal(es[i].key, fs[m[i]].key) && Equal(es[i].value, fs[m[i]].value)
  {
    hide Bijection, Equal, EntriesPaired;
    forall m: map<int, int> | Bijection(m, |es|)
      ensures EntriesPaired(m, es, fs) <==>
              forall i :: 0 <= i < |es| ==>
                i in m && 0 <= m[i] < |fs| && Equal(es[i].key, fs[m[i]].key) && Equal(es[i].value, fs[m[i]].value)
    {
      EntryPairing(m, es, fs);
    }
  }

  /** Sets: besides, a bijection that gives every member an equal one. */
  lemma EqualSets(v: Value, w: Value)
    requires v.Obj? && w.Obj? && v.body.SetOf?
    ensures Equal(v, w) <==>
            && w.body.SetOf? && v.proto == w.proto && Keys(v.props) == Keys(w.props)
            && (forall i, j :: 0 <= i < |v.props| && 0 <= j < |w.props| && v.props[i].key == w.props[j].key ==>
                  Equal(v.props[i].value, w.props[j].value))
            && |v.body.members| == |w.body.members|
            && exists m: map<int, int> {:trigger Bijection(m, |v.body.members|)} ::
                 Bijection(m, |v.body.members|) &&
                 forall i :: 0 <= i < |v.body.members| ==>
                   i in m && 0 <= m[i] < |w.body.members| && Equal(v.body.members[i], w.body.members[m[i]])
  {
    hide PropsEqual, Keys, Bijection, MembersEqual, EntriesEqual;
    PropsByKey(v.props, w.props);
    if w.body.SetOf? && |v.body.members| == |w.body.members| { MembersByPairing(v.body.members, w.body.members); }
  }

  /** Maps: besides, a bijection that gives every entry one with an equal key and an equal value. */
  lemma EqualMaps(v: Value, w: Value)
    requires v.Obj? && w.Obj? && v.body.MapOf?
    ensures Equal(v, w) <==>
            && w.body.MapOf? && v.proto == w.proto && Keys(v.props) == Keys(w.props)
            && (forall i, j :: 0 <= i < |v.props| && 0 <= j < |w.props| && v.props[i].key == w.props[j].key ==>
                  Equal(v.props[i].value, w.props[j].value))
            && |v.body.entries| == |w.body.entries|
            && exists m: map<int, int> {:trigger Bijection(m, |v.body.entries|)} ::
                 Bijection(m, |v.body.entries|) &&
                 forall i :: 0 <= i < |v.body.entries| ==>
                   && i in m && 0 <= m[i] < |w.body.entries|
                   && Equal(v.body.entries[i].key, w.body.entries[m[i]].key)
                   && Equal(v.body.entries[i].value, w.body.entries[m[i]].value)
  {
    hide PropsEqual, Keys, Bijection, MembersEqual, EntriesEqual;
    PropsByKey(v.props, w.props);
    if w.body.MapOf? && |v.body.entries| == |w.body.entries| { EntriesByPairing(v.body.entries, w.body.entries); }
  }

  ghost function Identity(n: nat): (m: map<int, int>)
    ensures Bijection(m, n) && forall i :: 0 <= i < n ==> i in m && m[i] == i
  {
    var m := map i | i in Range(n) :: i;
    forall i | i in Range(n) ensures Hit(m, i) { assert i in m && m[i] == i; }
    m
  }

  // ----- it is an equivalence

  lemma {:induction false} EqualReflexive(v: Value)
    requires WellFormed(v)
    ensures Equal(v, v)
    decreases v
  {
    if v.Obj? {
      forall i | 0 <= i < |v.props| ensures Equal(v.props[i].value, v.props[i].value) {
        EqualReflexive(v.props[i].value);
      }
      BodyReflexive(v.body, v);
    }
  }

  lemma {:induction false} BodyReflexive(b: Body, v: Value)
    requires v.Obj? && v.body == b && WellFormed(v)
    ensures BodiesEqual(b, b)
    decreases b
  {
    match b
    case Plain =>
    case Arr(xs) =>
      forall i | 0 <= i < |xs| ensures Equal(xs[i], xs[i]) { EqualReflexive(xs[i]); }
    case SetOf(xs) =>
      forall i | 0 <= i < |xs| ensures Equal(xs[i], xs[i]) { EqualReflexive(xs[i]); }
      assert MembersPaired(Identity(|xs|), xs, xs);
    case MapOf(es) =>
      forall i | 0 <= i < |es| ensures EntryEqual(es[i], es[i]) {
        EqualReflexive(es[i].key);
        EqualReflexive(es[i].value);
      }
      assert EntriesPaired(Identity(|es|), es, es);
  }

  lemma {:induction false} EqualSymmetric(v: Value, w: Value)
    requires Equal(v, w)
    ensures Equal(w, v)
    decreases v
  {
    if v.Obj? {
      forall i, j | 0 <= i < |v.props| && 0 <= j < |w.props| && v.props[i].key == w.props[j].key
        ensures ValuesEqual(w.props[j], v.props[i])
      {
        assert ValuesEqual(v.props[i], w.props[j]);
        EqualSymmetric(v.props[i].value, w.props[j].value);
      }
      BodySymmetric(v.body, w.body);
    }
  }

  lemma {:induction false} EntrySymmetric(e: Entry, f: Entry)
    requires EntryEqual(e, f)
    ensures EntryEqual(f, e)
    decreases e
  {
    EqualSymmetric(e.key, f.key);
    EqualSymmetric(e.value, f.value);
  }

  lemma {:induction false} BodySymmetric(b: Body, c: Body)
    requires BodiesEqual(b, c)
    ensures BodiesEqual(c, b)
    decreases b
  {
    match b
    case Plain =>
    case Arr(xs) =>
      forall i | 0 <= i < |xs| ensures Equal(c.items[i], xs[i]) { EqualSymmetric(xs[i], c.items[i]); }
    case SetOf(xs) => MembersSymmetric(xs, c.members);
    case MapOf(es) => EntriesSymmetric(es, c.entries);
  }

  lemma {:induction false} MembersSymmetric(xs: seq<Value>, ys: seq<Value>)
    requires |xs| == |ys| && MembersEqual(xs, ys)
    ensures MembersEqual(ys, xs)
    decreases xs
  {
    SetsEqualIsPairing(xs, ys);
    SetsEqualIsPairing(ys, xs);
    assert TurnsRound(EqualPairs(xs, ys), EqualPairs(ys, xs)) by {
      forall i, j | 0 <= i < |xs| && 0 <= j < |ys| && Equal(xs[i], ys[j]) ensures Equal(ys[j], xs[i]) {
        EqualSymmetric(xs[i], ys[j]);
      }
    }
    CanPairInverse(EqualPairs(xs, ys), EqualPairs(ys, xs), Range(|xs|), Range(|ys|));
  }

  lemma {:induction false} EntriesSymmetric(es: seq<Entry>, fs: seq<Entry>)
    requires |es| == |fs| && EntriesEqual(es, fs)
    ensures EntriesEqual(fs, es)
    decreases es
  {
    MapsEqualIsPairing(es, fs);
    MapsEqualIsPairing(fs, es);
    assert TurnsRound(EntryPairs(es, fs), EntryPairs(fs, es)) by {
      forall i, j | 0 <= i < |es| && 0 <= j < |fs| && EntryEqual(es[i], fs[j]) ensures EntryEqual(fs[j], es[i]) {
        EntrySymmetric(es[i], fs[j]);
      }
    }
    CanPairInverse(EntryPairs(es, fs), EntryPairs(fs, es), Range(|es|), Range(|fs|));
  }

  lemma {:induction false} EqualTransitive(u: Value, v: Value, w: Value)
    requires Equal(u, v) && Equal(v, w)
    ensures Equal(u, w)
    decreases u
  {
    if u.Obj? {
      PropsTransitive(u.props, v.props, w.props);
      BodyTransitive(u.body, v.body, w.body);
    }
  }

  lemma {:induction false} ValuesTransitive(p: Property, q: Property, r: Property)
    requires ValuesEqual(p, q) && ValuesEqual(q, r)
    ensures ValuesEqual(p, r)
    decreases p
  {
    EqualTransitive(p.value, q.value, r.value);
  }

  lemma {:induction false} PropsTransitive(ps: seq<Property>, qs: seq<Property>, rs: seq<Property>)
    requires PropsEqual(ps, qs) && PropsEqual(qs, rs)
    ensures PropsEqual(ps, rs)
    decreases ps
  {
    forall i, k | 0 <= i < |ps| && 0 <= k < |rs| && ps[i].key == rs[k].key ensures ValuesEqual(ps[i], rs[k]) {
      assert ps[i].key in Keys(qs);
      var j :| 0 <= j < |qs| && qs[j].key == ps[i].key;
      ValuesTransitive(ps[i], qs[j], rs[k]);
    }
  }

  lemma {:induction false} EntryTransitive(d: Entry, e: Entry, f: Entry)
    requires EntryEqual(d, e) && EntryEqual(e, f)
    ensures EntryEqual(d, f)
    decreases d
  {
    EqualTransitive(d.key, e.key, f.key);
    EqualTransitive(d.value, e.value, f.value);
  }

  lemma {:induction false} BodyTransitive(a: Body, b: Body, c: Body)
    requires BodiesEqual(a, b) && BodiesEqual(b, c)
    ensures BodiesEqual(a, c)
    decreases a
  {
    match a
    case Plain =>
    case Arr(xs) =>
      forall i | 0 <= i < |xs| ensures Equal(xs[i], c.items[i]) { EqualTransitive(xs[i], b.items[i], c.items[i]); }
    case SetOf(xs) => MembersTransitive(xs, b.members, c.members);
    case MapOf(es) => EntriesTransitive(es, b.entries, c.entries);
  }

  lemma {:induction false} MembersTransitive(xs: seq<Value>, ys: seq<Value>, zs: seq<Value>)
    requires |xs| == |ys| == |zs|
    requires MembersEqual(xs, ys)
    requires MembersEqual(ys, zs)
    ensures MembersEqual(xs, zs)
    decreases xs
  {
    SetsEqualIsPairing(xs, ys);
    SetsEqualIsPairing(ys, zs);
    SetsEqualIsPairing(xs, zs);
    assert Chains(EqualPairs(xs, ys), EqualPairs(ys, zs), EqualPairs(xs, zs)) by {
      forall i, j, k | 0 <= i < |xs| && 0 <= j < |ys| && 0 <= k < |zs| && Equal(xs[i], ys[j]) && Equal(ys[j], zs[k])
        ensures Equal(xs[i], zs[k])
      {
        EqualTransitive(xs[i], ys[j], zs[k]);
      }
    }
    CanPairCompose(EqualPairs(xs, ys), EqualPairs(ys, zs), EqualPairs(xs, zs), Range(|xs|), Range(|ys|), Range(|zs|));
  }

  lemma {:induction false} EntriesTransitive(xs: seq<Entry>, ys: seq<Entry>, zs: seq<Entry>)
    requires |xs| == |ys| == |zs|
    requires EntriesEqual(xs, ys)
    requires EntriesEqual(ys, zs)
    ensures EntriesEqual(xs, zs)
    decreases xs
  {
    MapsEqualIsPairing(xs, ys);
    MapsEqualIsPairing(ys, zs);
    MapsEqualIsPairing(xs, zs);
    assert Chains(EntryPairs(xs, ys), EntryPairs(ys, zs), EntryPairs(xs, zs)) by {
      forall i, j, k | 0 <= i < |xs| && 0 <= j < |ys| && 0 <= k < |zs| &&
                       EntryEqual(xs[i], ys[j]) && EntryEqual(ys[j], zs[k])
        ensures EntryEqual(xs[i], zs[k])
      {
        EntryTransitive(xs[i], ys[j], zs[k]);
      }
    }
    CanPairCompose(EntryPairs(xs, ys), EntryPairs(ys, zs), EntryPairs(xs, zs), Range(|xs|), Range(|ys|), Range(|zs|));
  }
}
