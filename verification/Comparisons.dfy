/**
 `isDeepStrictEqual` on acyclic values, as the code runs it: recursive branching, a memo of
 the pairs being compared, and Sets and Maps compared by deleting matches from a copy of
 one side while walking the other.
 */
module Comparisons {
  import opened Pairing
  import opened DeepValue
  import opened DeepKeys
  import opened Options

  /** The pairs under comparison, by object: `val1` and `val2` map each to a position. */
  class Memos {
    var val1: map<Value, nat>
    var val2: map<Value, nat>
    var position: nat

    constructor ()
      ensures val1 == map[] && val2 == map[] && position == 0
    {
      val1, val2, position := map[], map[], 0;
    }
  }

  function Frame(m: Memos?): set<object> {
    if m == null then {} else {m}
  }

  /** v and w are values that a program can build. */
  ghost predicate Comparable(v: Value, w: Value) {
    WellFormed(v) && WellFormed(w)
  }

  /** c is something that v holds. */
  ghost predicate Inside(c: Value, v: Value) {
    WellFormed(c) && Size(c) < Size(v) && Parts(c) <= Parts(v)
  }

  lemma ComparableInside(v: Value, w: Value, c: Value, d: Value)
    requires Comparable(v, w) && Inside(c, v) && Inside(d, w)
    ensures Comparable(c, d) && Comparable(d, c) && (NoSlips(v, w) ==> NoSlips(c, d) && NoSlips(d, c))
  {
    if NoSlips(v, w) { NoSlipsInside(v, w, c, d); }
  }

  ghost function Least(v: Value, w: Value): nat {
    if Size(v) < Size(w) then Size(v) else Size(w)
  }

  /** Every object in the memo is larger than n. */
  ghost predicate Above(m: Memos?, n: int)
    reads Frame(m)
  {
    m != null ==> forall u :: u in m.val1.Keys + m.val2.Keys ==> Size(u) > n
  }

  /** v and w are objects of the same kind whose lengths, sizes and key counts the caller has compared. */
  ghost predicate SameShape(v: Value, w: Value) {
    && v.Obj? && w.Obj? && v.proto == w.proto
    && match v.body
       case Plain => w.body.Plain?
       case Arr(xs) => w.body.Arr? && |xs| == |w.body.items| && |v.props| == |w.props|
       case SetOf(xs) => w.body.SetOf? && |xs| == |w.body.members|
       case MapOf(es) => w.body.MapOf? && |es| == |w.body.entries|
  }

  /** The contents are equal: what is left once kind and prototype agree. */
  ghost predicate ContentsEqual(v: Value, w: Value)
    requires v.Obj? && w.Obj?
  {
    PropsEqual(v.props, w.props) && BodiesEqual(v.body, w.body)
  }

  // ----- identity and primitives

  predicate IsZero(v: Value) { v == Prim(Number(NegZero)) || v == Prim(Number(Finite(0.0))) }

  predicate IsNaN(v: Value) { v == Prim(Number(NaN)) }

  /** === */
  predicate StrictlyEqual(v: Value, w: Value) {
    if IsNaN(v) then false
    else if IsZero(v) then IsZero(w)
    else v == w
  }

  /** typeof v === 'object' */
  predicate TypeofObject(v: Value) { v.Obj? || v == Prim(Null) }

  /** How Sets and Maps compare keys. */
  predicate SameValueZero(v: Value, w: Value) {
    v == w || (IsZero(v) && IsZero(w))
  }

  predicate Has(ys: seq<Value>, x: Value) {
    exists j :: 0 <= j < |ys| && SameValueZero(ys[j], x)
  }

  // ----- children are smaller

  lemma MemberFacts(v: Value, i: nat)
    requires v.Obj? && v.body.SetOf? && WellFormed(v) && i < |v.body.members|
    ensures Inside(v.body.members[i], v)
  {
    ItemSmaller(v.body.members, i);
  }

  lemma ItemFacts(v: Value, i: nat)
    requires v.Obj? && v.body.Arr? && WellFormed(v) && i < |v.body.items|
    ensures Inside(v.body.items[i], v)
  {
    ItemSmaller(v.body.items, i);
  }

  lemma EntryFacts(v: Value, i: nat)
    requires v.Obj? && v.body.MapOf? && WellFormed(v) && i < |v.body.entries|
    ensures Inside(v.body.entries[i].key, v) && Inside(v.body.entries[i].value, v)
  {
    EntrySmaller(v.body.entries, i);
  }

  lemma PropFacts(v: Value, k: Key)
    requires v.Obj? && WellFormed(v) && Enumerable(v, k)
    ensures Inside(Get(v, k), v)
  {
    var i :| 0 <= i < |v.props| && v.props[i] == Property(k, Get(v, k));
    PropSmaller(v.props, i);
    assert Parts(v.props[i].value) <= Parts(v);
  }

  // ----- Sets

  ghost function Objects(xs: seq<Value>): set<int> {
    set i | i in Range(|xs|) && IsObject(xs[i])
  }

  /** With an equivalence, greedy pairing is safe. */
  lemma EqualExchange(ys: seq<Value>, xs: seq<Value>, j: int, i: int)
    requires Related(EqualPairs(ys, xs), j, i)
    ensures Exchangeable(EqualPairs(ys, xs), j, i)
  {
    var r := EqualPairs(ys, xs);
    forall j', i' | Related(r, j, i') && Related(r, j', i) ensures Related(r, j', i') {
      EqualSymmetric(ys[j], xs[i]);
      EqualTransitive(ys[j'], xs[i], ys[j]);
      EqualTransitive(ys[j'], ys[j], xs[i']);
    }
  }

  lemma MembersTurn(xs: seq<Value>, ys: seq<Value>)
    ensures TurnsRound(EqualPairs(xs, ys), EqualPairs(ys, xs))
  {
    forall i, j | Related(EqualPairs(xs, ys), i, j) ensures Related(EqualPairs(ys, xs), j, i) {
      EqualSymmetric(xs[i], ys[j]);
    }
  }

  ghost predicate MembersOk(xs: seq<Value>) {
    DistinctMembers(xs) && forall i :: 0 <= i < |xs| ==> xs[i] != MinusZero
  }

  lemma MembersSeparated(xs: seq<Value>, ys: seq<Value>, iz: set<int>, js: set<int>)
    requires |xs| == |ys| && MembersOk(xs)
    requires iz == Objects(xs) && (js == Objects(ys) || (iz == {} && js == {}))
    ensures Separated(EqualPairs(xs, ys), Range(|xs|), Range(|ys|), iz, js)
  {
    var r := EqualPairs(xs, ys);
    forall i, j | Related(r, i, j) ensures i in Range(|xs|) && j in Range(|ys|) && (i in iz <==> j in js) {}
    forall i, i', j | Related(r, i, j) && Related(r, i', j) && i !in iz ensures i == i' {
      assert !IsObject(xs[i]) && xs[i] == ys[j] && xs[i'] == ys[j];
    }
  }

  lemma CanPairTurned(xs: seq<Value>, ys: seq<Value>, iz: set<int>, js: set<int>)
    ensures CanPair(EqualPairs(xs, ys), iz, js) <==> CanPair(EqualPairs(ys, xs), js, iz)
  {
    var r, s := EqualPairs(xs, ys), EqualPairs(ys, xs);
    MembersTurn(xs, ys);
    MembersTurn(ys, xs);
    if CanPair(r, iz, js) { CanPairInverse(r, s, iz, js); }
    if CanPair(s, js, iz) { CanPairInverse(s, r, js, iz); }
  }

  /** What the two loops of `setEquiv` establish: a partner for every primitive, and a pairing of the objects. */
  lemma SetsEqualByParts(xs: seq<Value>, ys: seq<Value>)
    requires |xs| == |ys| && MembersOk(xs)
    ensures SetsEqual(xs, ys) <==>
            && AllHavePartners(EqualPairs(xs, ys), Range(|xs|) - Objects(xs))
            && CanPair(EqualPairs(ys, xs), Objects(ys), Objects(xs))
  {
    MembersSeparated(xs, ys, Objects(xs), Objects(ys));
    Split(EqualPairs(xs, ys), Range(|xs|), Range(|ys|), Objects(xs), Objects(ys));
    CanPairTurned(xs, ys, Objects(xs), Objects(ys));
  }

  /** Without objects on the first side the second loop is not run: the sizes leave no room for objects on the other. */
  lemma SetsEqualWithoutObjects(xs: seq<Value>, ys: seq<Value>)
    requires |xs| == |ys| && MembersOk(xs) && Objects(xs) == {}
    ensures SetsEqual(xs, ys) <==> AllHavePartners(EqualPairs(xs, ys), Range(|xs|) - Objects(xs))
  {
    MembersSeparated(xs, ys, {}, {});
    Split(EqualPairs(xs, ys), Range(|xs|), Range(|ys|), {}, {});
    NothingLeft(EqualPairs(xs, ys), {});
  }

  lemma PrimitivePartner(xs: seq<Value>, ys: seq<Value>, i: nat)
    requires i < |xs| && !IsObject(xs[i]) && MembersOk(xs) && MembersOk(ys)
    ensures Has(ys, xs[i]) <==> HasPartner(EqualPairs(xs, ys), i)
  {
    var r := EqualPairs(xs, ys);
    if Has(ys, xs[i]) {
      var j :| 0 <= j < |ys| && SameValueZero(ys[j], xs[i]);
      assert xs[i] != MinusZero && ys[j] != MinusZero;
      assert Related(r, i, j);
    }
    if HasPartner(r, i) {
      var j := Partner(r, i);
      assert SameValueZero(ys[j], xs[i]);
    }
  }

  // ----- Maps

  ghost function ObjectKeys(es: seq<Entry>): set<int> {
    set i | i in Range(|es|) && IsObject(es[i].key)
  }

  ghost predicate EntriesOk(es: seq<Entry>) {
    DistinctKeys(es) && forall i :: 0 <= i < |es| ==> es[i].key != MinusZero
  }

  lemma EntryExchange(fs: seq<Entry>, es: seq<Entry>, j: int, i: int)
    requires Related(EntryPairs(fs, es), j, i)
    ensures Exchangeable(EntryPairs(fs, es), j, i)
  {
    var r := EntryPairs(fs, es);
    forall j', i' | Related(r, j, i') && Related(r, j', i) ensures Related(r, j', i') {
      EntrySymmetric(fs[j], es[i]);
      EntryTransitive(fs[j'], es[i], fs[j]);
      EntryTransitive(fs[j'], fs[j], es[i']);
    }
  }

  lemma EntriesTurn(es: seq<Entry>, fs: seq<Entry>)
    ensures TurnsRound(EntryPairs(es, fs), EntryPairs(fs, es))
  {
    forall i, j | Related(EntryPairs(es, fs), i, j) ensures Related(EntryPairs(fs, es), j, i) {
      EntrySymmetric(es[i], fs[j]);
    }
  }

  lemma KeysAgree(e: Entry, f: Entry)
    requires EntryEqual(e, f)
    ensures IsObject(e.key) == IsObject(f.key) && (!IsObject(e.key) ==> e.key == f.key)
  {
    assert Equal(e.key, f.key);
  }

  lemma EntriesSeparated(es: seq<Entry>, fs: seq<Entry>, iz: set<int>, js: set<int>)
    requires |es| == |fs| && EntriesOk(es)
    requires iz == ObjectKeys(es) && (js == ObjectKeys(fs) || (iz == {} && js == {}))
    ensures Separated(EntryPairs(es, fs), Range(|es|), Range(|fs|), iz, js)
  {
    var r := EntryPairs(es, fs);
    forall i, j | Related(r, i, j) ensures i in Range(|es|) && j in Range(|fs|) && (i in iz <==> j in js) {
      KeysAgree(es[i], fs[j]);
    }
    forall i, i', j | Related(r, i, j) && Related(r, i', j) && i !in iz ensures i == i' {
      KeysAgree(es[i], fs[j]);
      KeysAgree(es[i'], fs[j]);
    }
  }

  lemma MapsEqualByParts(es: seq<Entry>, fs: seq<Entry>)
    requires |es| == |fs| && EntriesOk(es)
    ensures MapsEqual(es, fs) <==>
            && AllHavePartners(EntryPairs(es, fs), Range(|es|) - ObjectKeys(es))
            && CanPair(EntryPairs(fs, es), ObjectKeys(fs), ObjectKeys(es))
  {
    var r, s, iz, js := EntryPairs(es, fs), EntryPairs(fs, es), ObjectKeys(es), ObjectKeys(fs);
    EntriesSeparated(es, fs, iz, js);
    Split(r, Range(|es|), Range(|fs|), iz, js);
    EntriesTurn(es, fs);
    EntriesTurn(fs, es);
    if CanPair(r, iz, js) { CanPairInverse(r, s, iz, js); }
    if CanPair(s, js, iz) { CanPairInverse(s, r, js, iz); }
  }

  lemma MapsEqualWithoutObjects(es: seq<Entry>, fs: seq<Entry>)
    requires |es| == |fs| && EntriesOk(es) && ObjectKeys(es) == {}
    ensures MapsEqual(es, fs) <==> AllHavePartners(EntryPairs(es, fs), Range(|es|) - ObjectKeys(es))
  {
    EntriesSeparated(es, fs, {}, {});
    Split(EntryPairs(es, fs), Range(|es|), Range(|fs|), {}, {});
    NothingLeft(EntryPairs(es, fs), {});
  }

  // ----- the copy that matches are deleted from

  /** `copy` holds the members at the indices listed in `at`. */
  ghost predicate Copies<T>(copy: seq<T>, xs: seq<T>, at: seq<int>) {
    && |copy| == |at|
    && (forall t :: 0 <= t < |at| ==> 0 <= at[t] < |xs| && copy[t] == xs[at[t]])
    && (forall t, u :: 0 <= t < u < |at| ==> at[t] != at[u])
  }

  ghost function Listed(at: seq<int>): set<int> {
    set t | 0 <= t < |at| :: at[t]
  }

  lemma CopiesAdd<T>(copy: seq<T>, xs: seq<T>, at: seq<int>, i: nat)
    requires Copies(copy, xs, at) && i < |xs| && i !in Listed(at)
    ensures Copies(copy + [xs[i]], xs, at + [i]) && Listed(at + [i]) == Listed(at) + {i}
  {
    var at' := at + [i];
    assert at'[|at|] == i;
    forall t | 0 <= t < |at| ensures at'[t] in Listed(at) && at[t] in Listed(at') { assert at'[t] == at[t]; }
  }

  lemma CopiesDelete<T>(copy: seq<T>, xs: seq<T>, at: seq<int>, t: nat)
    requires Copies(copy, xs, at) && t < |copy|
    ensures Copies(copy[..t] + copy[t + 1..], xs, at[..t] + at[t + 1..])
    ensures Listed(at[..t] + at[t + 1..]) == Listed(at) - {at[t]}
  {
    var at' := at[..t] + at[t + 1..];
    forall u | 0 <= u < |at| && u != t ensures at[u] in Listed(at') {
      assert at[u] == at'[if u < t then u else u - 1];
    }
    forall u | 0 <= u < |at'| ensures at'[u] in Listed(at) && at'[u] != at[t] {
      assert at'[u] == at[if u < t then u else u + 1];
    }
  }

  lemma CopiesEmpty<T>(copy: seq<T>, xs: seq<T>, at: seq<int>)
    requires Copies(copy, xs, at)
    ensures |copy| == 0 <==> Listed(at) == {}
  {
    if |at| > 0 { assert at[0] in Listed(at); } else { assert Listed(at) == {}; }
  }

  // ----- the comparison itself

  method InnerDeepEqual(v: Value, w: Value, memos: Memos?) returns (r: bool)
    requires Comparable(v, w) && Above(memos, Least(v, w))
    modifies Frame(memos)
    ensures memos != null ==> memos.val1.Keys <= old(memos.val1.Keys) && memos.val2.Keys <= old(memos.val2.Keys)
    ensures NoSlips(v, w) ==> r == Equal(v, w)
    ensures Hollow(v, w) ==> r == KeyTest(v, w)
    decreases Size(v) + Size(w), 6
  {
    var answer, keys := Shallow(v, w);
    if answer.Some? { return answer.value; }
    r := KeyCheck(v, w, keys, memos);
  }

  /**
   What is decided without looking inside: identity, primitives, kinds, prototypes, sizes, keys,
   and that there is nothing inside. No answer means that the contents decide.
   */
  method Shallow(v: Value, w: Value) returns (answer: Option<bool>, keys: seq<Key>)
    requires Comparable(v, w)
    ensures NoSlips(v, w) && answer.Some? ==> answer.value == Equal(v, w)
    ensures answer.None? ==> SameShape(v, w) && Listing(v, w, keys)
    ensures NoSlips(v, w) && answer.None? ==> Keys(v.props) == Keys(w.props) && Equal(v, w) == ContentsEqual(v, w)
    ensures Plainly(v, w) && !KeyTest(v, w) ==> answer == Some(false)
    ensures Plainly(v, w) && KeyTest(v, w) && v.props == [] ==> answer == Some(true)
  {
    keys := [];
    answer := Alike(v, w);
    if answer.Some? { return; }
    answer, keys := KeyVerdict(v, w);
    if NoSlips(v, w) { KeysDecide(v, w); }
  }

  /** The keys of v, all of which w has; w may have others if the key test is misled. */
  ghost predicate Listing(v: Value, w: Value, keys: seq<Key>)
    requires v.Obj? && w.Obj?
  {
    Keys(v.props) <= Keys(w.props) && forall k :: k in keys <==> k in Keys(v.props)
  }

  lemma KeysListed(v: Value, w: Value)
    requires v.Obj? && w.Obj? && KeysPass(v, w)
    ensures Keys(v.props) <= Keys(w.props)
  {
    forall k | k in Keys(v.props) ensures k in Keys(w.props) {
      assert k in NameSet(v.props) || k in SymbolSet(v.props);
      if !v.body.Arr? && k in SymbolSet(v.props) { assert k in SymbolSet(v.props) + HiddenSet(v); }
    }
  }

  /** The keys pass: by the key test, and for arrays by inclusion at equal counts. */
  ghost predicate KeysPass(v: Value, w: Value)
    requires v.Obj? && w.Obj?
  {
    if v.body.Arr? then Keys(v.props) == Keys(w.props) else KeyTest(v, w)
  }

  method KeyVerdict(v: Value, w: Value) returns (answer: Option<bool>, keys: seq<Key>)
    requires Comparable(v, w) && SameShape(v, w)
    ensures answer == Some(false) <==> !KeysPass(v, w)
    ensures answer == Some(true) <==> KeysPass(v, w) && Keys(v.props) == {} && NothingInside(v)
    ensures answer.None? ==> Listing(v, w, keys)
  {
    var ok;
    ok, keys := SameOwnKeys(v, w);
    if !ok { return Some(false), keys; }
    KeysListed(v, w);
    assert |keys| > 0 ==> keys[0] in keys;
    if |keys| == 0 && NothingInside(v) { return Some(true), keys; }
    answer := None;
  }

  lemma KeysDecide(v: Value, w: Value)
    requires Comparable(v, w) && NoSlips(v, w) && SameShape(v, w)
    ensures KeysPass(v, w) <==> Keys(v.props) == Keys(w.props)
    ensures Keys(v.props) == Keys(w.props) == {} && NothingInside(v) ==> ContentsEqual(v, w)
    ensures Equal(v, w) == ContentsEqual(v, w) && (ContentsEqual(v, w) ==> Keys(v.props) == Keys(w.props))
  {
    if !v.body.Arr? { KeyTestHolds(v, w); }
    if Keys(v.props) == Keys(w.props) == {} && NothingInside(v) { NothingToCompare(v, w); }
  }

  /** Two different plain objects of one kind. */
  predicate Plainly(v: Value, w: Value) {
    v.Obj? && w.Obj? && v != w && v.proto == w.proto && v.body.Plain? && w.body.Plain?
  }

  /** Two plain objects that the key test alone decides. */
  ghost predicate Hollow(v: Value, w: Value) {
    Plainly(v, w) && (v.props == [] || !KeyTest(v, w))
  }

  /** Everything before the keys. */
  method Alike(v: Value, w: Value) returns (answer: Option<bool>)
    requires Comparable(v, w)
    ensures answer.Some? ==> answer.value == Equal(v, w)
    ensures answer.None? ==> SameShape(v, w)
    ensures Plainly(v, w) ==> answer.None?
  {
    if StrictlyEqual(v, w) {
      if !IsZero(v) {
        EqualReflexive(v);
        return Some(true);
      }
      return Some(v == w);
    }
    if !TypeofObject(v) { return Some(IsNaN(v) && IsNaN(w)); }
    if !TypeofObject(w) || v == Prim(Null) || w == Prim(Null) { return Some(false); }
    if v.proto != w.proto { return Some(false); }
    match v.body {
      case Plain =>
        if !w.body.Plain? { return Some(false); }
      case Arr(xs) =>
        if !w.body.Arr? || |xs| != |w.body.items| { return Some(false); }
        if |v.props| != |w.props| { PropCounts(v, w); return Some(false); }
      case SetOf(xs) =>
        if !w.body.SetOf? || |xs| != |w.body.members| { return Some(false); }
      case MapOf(es) =>
        if !w.body.MapOf? || |es| != |w.body.entries| { return Some(false); }
    }
    return None;
  }

  /** Distinct keys: as many properties as keys. */
  lemma PropCounts(v: Value, w: Value)
    requires v.Obj? && w.Obj? && DistinctProps(v.props) && DistinctProps(w.props)
    ensures Keys(v.props) == Keys(w.props) ==> |v.props| == |w.props|
  {
    KeyCount(v.props);
    KeyCount(w.props);
  }

  lemma {:induction false} KeyCount(ps: seq<Property>)
    requires DistinctProps(ps)
    ensures |Keys(ps)| == |ps|
  {
    if ps != [] {
      KeysOfRest(ps);
      KeyCount(ps[1..]);
    }
  }

  /** The memo around the comparison of the contents. */
  method KeyCheck(v: Value, w: Value, keys: seq<Key>, memos: Memos?) returns (r: bool)
    requires Comparable(v, w) && SameShape(v, w) && Above(memos, Least(v, w))
    requires Listing(v, w, keys) && (NoSlips(v, w) ==> Keys(v.props) == Keys(w.props))
    modifies Frame(memos)
    ensures memos != null ==> memos.val1.Keys <= old(memos.val1.Keys) && memos.val2.Keys <= old(memos.val2.Keys)
    ensures NoSlips(v, w) ==> r == ContentsEqual(v, w)
    decreases Size(v) + Size(w), 5
  {
    var m: Memos;
    if memos == null {
      m := new Memos();
    } else {
      m := memos;
      if v in m.val1 && w in m.val2 {
        // Never on acyclic values: every object in the memo is larger than the smaller of v and w.
        assert false;
      }
      m.position := m.position + 1;
    }
    m.val1 := m.val1[v := m.position];
    m.val2 := m.val2[w := m.position];
    r := ObjEquiv(v, w, keys, m);
    m.val1 := m.val1 - {v};
    m.val2 := m.val2 - {w};
  }

  predicate NothingInside(v: Value)
    requires v.Obj?
  {
    match v.body
    case Plain => true
    case Arr(xs) => |xs| == 0
    case SetOf(xs) => |xs| == 0
    case MapOf(es) => |es| == 0
  }

  lemma NothingToCompare(v: Value, w: Value)
    requires SameShape(v, w) && NothingInside(v) && Keys(v.props) == Keys(w.props) == {}
    requires DistinctProps(v.props) && DistinctProps(w.props)
    ensures ContentsEqual(v, w)
  {
    KeyCount(v.props);
    KeyCount(w.props);
    match v.body
    case Plain =>
    case Arr(xs) =>
    case SetOf(xs) => assert MembersPaired(map[], xs, w.body.members) && MembersEqual(xs, w.body.members);
    case MapOf(es) => assert EntriesPaired(map[], es, w.body.entries) && EntriesEqual(es, w.body.entries);
  }

  lemma KeyTestHolds(v: Value, w: Value)
    requires Comparable(v, w) && NoSlips(v, w) && v.Obj? && w.Obj? && v.proto == w.proto && !v.body.Arr? && !w.body.Arr?
    ensures KeyTest(v, w) <==> Keys(v.props) == Keys(w.props)
  {
    assert v in Parts(v) && w in Parts(w);
    assert !Slipping(v, w);
    KeyTestExact(v, w);
  }

  /** The key comparison in both its forms: by the key test, and for arrays by inclusion at equal counts. */
  method SameOwnKeys(v: Value, w: Value) returns (ok: bool, keys: seq<Key>)
    requires Comparable(v, w) && SameShape(v, w)
    ensures ok == KeysPass(v, w)
    ensures ok ==> forall k :: k in keys <==> k in Keys(v.props)
  {
    assert OwnKeys(v) && OwnKeys(w);
    if v.body.Arr? {
      keys := KeyList(v.props);
      ok := AllIn(keys, Keys(w.props));
      ListedKeys(v.props, w.props, keys);
    } else {
      ok := CheckNames(v, w);
      if !ok { return false, []; }
      var kept;
      ok, kept := CheckSymbols(v, w);
      keys := NamesOf(v.props) + kept;
      NameCount(v.props);
      SymbolCount(v.props);
    }
  }

  method AllIn(keys: seq<Key>, s: set<Key>) returns (ok: bool)
    ensures ok <==> forall i :: 0 <= i < |keys| ==> keys[i] in s
  {
    var i := 0;
    while i < |keys|
      invariant 0 <= i <= |keys|
      invariant forall j :: 0 <= j < i ==> keys[j] in s
    {
      if keys[i] !in s { return false; }
      i := i + 1;
    }
    ok := true;
  }

  lemma ListedKeys(ps: seq<Property>, qs: seq<Property>, keys: seq<Key>)
    requires DistinctProps(ps) && DistinctProps(qs) && |ps| == |qs| && keys == KeyList(ps)
    ensures forall k :: k in keys <==> k in Keys(ps)
    ensures (forall i :: 0 <= i < |keys| ==> keys[i] in Keys(qs)) <==> Keys(ps) == Keys(qs)
  {
    forall k | k in Keys(ps) ensures k in keys {
      var i :| 0 <= i < |ps| && ps[i].key == k;
      assert keys[i] == k;
    }
    KeyCount(ps);
    KeyCount(qs);
    if forall i :: 0 <= i < |keys| ==> keys[i] in Keys(qs) {
      assert Keys(ps) <= Keys(qs);
      FullSubset(Keys(ps), Keys(qs));
    }
    if Keys(ps) == Keys(qs) {
      forall i | 0 <= i < |keys| ensures keys[i] in Keys(qs) { assert keys[i] in keys; }
    }
  }

  method ObjEquiv(v: Value, w: Value, keys: seq<Key>, m: Memos) returns (r: bool)
    requires Comparable(v, w) && SameShape(v, w) && Above(m, Least(v, w) - 1)
    requires Listing(v, w, keys) && (NoSlips(v, w) ==> Keys(v.props) == Keys(w.props))
    modifies m
    ensures m.val1.Keys <= old(m.val1.Keys) && m.val2.Keys <= old(m.val2.Keys)
    ensures NoSlips(v, w) ==> r == ContentsEqual(v, w)
    decreases Size(v) + Size(w), 4
  {
    match v.body {
      case Plain =>
      case Arr(xs) =>
        var same := ArrayEquiv(v, w, m);
        ArraysEqual(v, w);
        if !same { return false; }
      case SetOf(xs) =>
        var same := SetEquiv(v, w, m);
        SetBodies(v, w);
        if !same { return false; }
      case MapOf(es) =>
        var same := MapEquiv(v, w, m);
        MapBodies(v, w);
        if !same { return false; }
    }
    assert NoSlips(v, w) ==> BodiesEqual(v.body, w.body);
    r := PropsEquiv(v, w, keys, m);
  }

  lemma ArraysEqual(v: Value, w: Value)
    requires SameShape(v, w) && v.body.Arr?
    ensures BodiesEqual(v.body, w.body) <==>
            forall i :: 0 <= i < |v.body.items| ==> Equal(v.body.items[i], w.body.items[i])
  {}

  lemma SetBodies(v: Value, w: Value)
    requires SameShape(v, w) && v.body.SetOf?
    ensures BodiesEqual(v.body, w.body) <==> SetsEqual(v.body.members, w.body.members)
  {
    SetsEqualIsPairing(v.body.members, w.body.members);
  }

  lemma MapBodies(v: Value, w: Value)
    requires SameShape(v, w) && v.body.MapOf?
    ensures BodiesEqual(v.body, w.body) <==> MapsEqual(v.body.entries, w.body.entries)
  {
    MapsEqualIsPairing(v.body.entries, w.body.entries);
  }

  method ArrayEquiv(v: Value, w: Value, m: Memos) returns (r: bool)
    requires Comparable(v, w) && SameShape(v, w) && v.body.Arr? && Above(m, Least(v, w) - 1)
    modifies m
    ensures m.val1.Keys <= old(m.val1.Keys) && m.val2.Keys <= old(m.val2.Keys)
    ensures NoSlips(v, w) ==> r == forall i :: 0 <= i < |v.body.items| ==> Equal(v.body.items[i], w.body.items[i])
    decreases Size(v) + Size(w), 2
  {
    var xs, ys := v.body.items, w.body.items;
    var i := 0;
    while i < |xs|
      invariant 0 <= i <= |xs|
      invariant m.val1.Keys <= old(m.val1.Keys) && m.val2.Keys <= old(m.val2.Keys)
      invariant NoSlips(v, w) ==> forall j :: 0 <= j < i ==> Equal(xs[j], ys[j])
    {
      ItemFacts(v, i);
      ItemFacts(w, i);
      ComparableInside(v, w, xs[i], ys[i]);
      var same := InnerDeepEqual(xs[i], ys[i], m);
      if !same { return false; }
      i := i + 1;
    }
    r := true;
  }

  method PropsEquiv(v: Value, w: Value, keys: seq<Key>, m: Memos) returns (r: bool)
    requires Comparable(v, w) && v.Obj? && w.Obj? && Above(m, Least(v, w) - 1)
    requires Listing(v, w, keys) && (NoSlips(v, w) ==> Keys(v.props) == Keys(w.props))
    modifies m
    ensures m.val1.Keys <= old(m.val1.Keys) && m.val2.Keys <= old(m.val2.Keys)
    ensures NoSlips(v, w) ==> r == PropsEqual(v.props, w.props)
    decreases Size(v) + Size(w), 2
  {
    var i := 0;
    while i < |keys|
      invariant 0 <= i <= |keys|
      invariant m.val1.Keys <= old(m.val1.Keys) && m.val2.Keys <= old(m.val2.Keys)
      invariant NoSlips(v, w) ==> forall j :: 0 <= j < i ==> PropEqual(v, w, keys[j])
    {
      var key := keys[i];
      assert key in keys;
      var same := SameProp(v, w, key, m);
      if !same {
        if NoSlips(v, w) { PropDiffers(v, w, key); }
        return false;
      }
      i := i + 1;
    }
    if NoSlips(v, w) { AllPropsEqual(v, w, keys); }
    r := true;
  }

  method SameProp(v: Value, w: Value, key: Key, m: Memos) returns (same: bool)
    requires Comparable(v, w) && v.Obj? && w.Obj? && Above(m, Least(v, w) - 1)
    requires Enumerable(v, key) && Enumerable(w, key)
    modifies m
    ensures m.val1.Keys <= old(m.val1.Keys) && m.val2.Keys <= old(m.val2.Keys)
    ensures NoSlips(v, w) ==> same == Equal(Get(v, key), Get(w, key))
    decreases Size(v) + Size(w), 1
  {
    PropFacts(v, key);
    PropFacts(w, key);
    ComparableInside(v, w, Get(v, key), Get(w, key));
    same := InnerDeepEqual(Get(v, key), Get(w, key), m);
  }

  ghost predicate PropEqual(v: Value, w: Value, k: Key)
    requires v.Obj? && w.Obj?
  {
    Enumerable(v, k) && Enumerable(w, k) && Equal(Get(v, k), Get(w, k))
  }

  lemma PropDiffers(v: Value, w: Value, k: Key)
    requires v.Obj? && w.Obj? && Enumerable(v, k) && Enumerable(w, k) && !Equal(Get(v, k), Get(w, k))
    ensures !PropsEqual(v.props, w.props)
  {
    var i :| 0 <= i < |v.props| && v.props[i] == Property(k, Get(v, k));
    var j :| 0 <= j < |w.props| && w.props[j] == Property(k, Get(w, k));
    assert !ValuesEqual(v.props[i], w.props[j]);
  }

  lemma AllPropsEqual(v: Value, w: Value, keys: seq<Key>)
    requires v.Obj? && w.Obj? && DistinctProps(v.props) && DistinctProps(w.props)
    requires Keys(v.props) == Keys(w.props) && forall k :: k in keys <==> k in Keys(v.props)
    requires forall j :: 0 <= j < |keys| ==> PropEqual(v, w, keys[j])
    ensures PropsEqual(v.props, w.props)
  {
    forall i, j | 0 <= i < |v.props| && 0 <= j < |w.props| && v.props[i].key == w.props[j].key
      ensures ValuesEqual(v.props[i], w.props[j])
    {
      var k := v.props[i].key;
      assert k in Keys(v.props);
      var n :| 0 <= n < |keys| && keys[n] == k;
      assert PropEqual(v, w, keys[n]);
      GetIs(v, i);
      GetIs(w, j);
    }
  }

  lemma GetIs(v: Value, i: nat)
    requires v.Obj? && DistinctProps(v.props) && i < |v.props|
    ensures Enumerable(v, v.props[i].key) && Get(v, v.props[i].key) == v.props[i].value
  {
    var k := v.props[i].key;
    assert k in Keys(v.props);
    var j :| 0 <= j < |v.props| && v.props[j] == Property(k, Get(v, k));
  }

  /** Looks for a member of `copy` equal to x, and deletes it. */
  method SetHasEqualElement(copy: seq<Value>, x: Value, m: Memos, ghost v: Value, ghost w: Value,
                            ghost at: seq<int>, ghost j: nat)
    returns (found: bool, rest: seq<Value>, ghost t: nat)
    requires Comparable(v, w) && SameShape(v, w) && v.body.SetOf? && Above(m, Least(v, w) - 1)
    requires Copies(copy, v.body.members, at) && j < |w.body.members| && x == w.body.members[j]
    modifies m
    ensures m.val1.Keys <= old(m.val1.Keys) && m.val2.Keys <= old(m.val2.Keys)
    ensures found ==> t < |copy| && rest == copy[..t] + copy[t + 1..]
    ensures NoSlips(v, w) ==> if found then Equal(x, copy[t]) else forall u :: 0 <= u < |copy| ==> !Equal(x, copy[u])
    decreases Size(v) + Size(w), 0
  {
    var i := 0;
    while i < |copy|
      invariant 0 <= i <= |copy|
      invariant m.val1.Keys <= old(m.val1.Keys) && m.val2.Keys <= old(m.val2.Keys)
      invariant NoSlips(v, w) ==> forall u :: 0 <= u < i ==> !Equal(x, copy[u])
    {
      MemberFacts(v, at[i]);
      MemberFacts(w, j);
      ComparableInside(v, w, copy[i], x);
      var same := InnerDeepEqual(x, copy[i], m);
      if same { return true, copy[..i] + copy[i + 1..], i; }
      i := i + 1;
    }
    return false, copy, 0;
  }

  /** The objects of ys from index j on. */
  ghost function ObjectsFrom(ys: seq<Value>, j: int): set<int> {
    set i | i in Objects(ys) && i >= j
  }

  /** What is true of the copy while the second loop of `setEquiv` runs. */
  ghost predicate Hunting(copy: seq<Value>, at: seq<int>, xs: seq<Value>, ys: seq<Value>, j: nat) {
    && Copies(copy, xs, at)
    && (CanPair(EqualPairs(ys, xs), ObjectsFrom(ys, j), Listed(at)) <==>
        CanPair(EqualPairs(ys, xs), Objects(ys), Objects(xs)))
  }

  lemma HuntMatched(copy: seq<Value>, at: seq<int>, xs: seq<Value>, ys: seq<Value>, j: nat, t: nat)
    requires Hunting(copy, at, xs, ys, j) && j < |ys| && IsObject(ys[j])
    requires t < |copy| && Equal(ys[j], copy[t])
    ensures Hunting(copy[..t] + copy[t + 1..], at[..t] + at[t + 1..], xs, ys, j + 1)
  {
    var r, i := EqualPairs(ys, xs), at[t];
    assert Related(r, j, i);
    EqualExchange(ys, xs, j, i);
    CopiesDelete(copy, xs, at, t);
    assert i in Listed(at) && j in ObjectsFrom(ys, j);
    Greedy(r, ObjectsFrom(ys, j), Listed(at), j, i);
    assert ObjectsFrom(ys, j) - {j} == ObjectsFrom(ys, j + 1);
  }

  lemma HuntUnmatched(copy: seq<Value>, at: seq<int>, xs: seq<Value>, ys: seq<Value>, j: nat)
    requires Hunting(copy, at, xs, ys, j) && j < |ys| && IsObject(ys[j])
    requires forall u :: 0 <= u < |copy| ==> !Equal(ys[j], copy[u])
    ensures !CanPair(EqualPairs(ys, xs), Objects(ys), Objects(xs))
  {
    var r := EqualPairs(ys, xs);
    forall i | i in Listed(at) ensures !Related(r, j, i) {
      var t :| 0 <= t < |at| && at[t] == i;
      assert copy[t] == xs[i];
    }
    assert j in ObjectsFrom(ys, j);
    NoPartner(r, ObjectsFrom(ys, j), Listed(at), j);
  }

  lemma HuntOver(copy: seq<Value>, at: seq<int>, xs: seq<Value>, ys: seq<Value>)
    requires Hunting(copy, at, xs, ys, |ys|)
    ensures |copy| == 0 <==> CanPair(EqualPairs(ys, xs), Objects(ys), Objects(xs))
  {
    assert ObjectsFrom(ys, |ys|) == {};
    CopiesEmpty(copy, xs, at);
    NothingLeft(EqualPairs(ys, xs), Listed(at));
  }

  /** First loop of `setEquiv`: copy the objects, look the primitives up. */
  method CopyObjects(xs: seq<Value>, ys: seq<Value>) returns (ok: bool, copy: seq<Value>, ghost at: seq<int>)
    requires MembersOk(xs) && MembersOk(ys)
    ensures ok <==> AllHavePartners(EqualPairs(xs, ys), Range(|xs|) - Objects(xs))
    ensures ok ==> Copies(copy, xs, at) && Listed(at) == Objects(xs)
  {
    ghost var r := EqualPairs(xs, ys);
    copy, at := [], [];
    assert Listed(at) == {};
    var i := 0;
    while i < |xs|
      invariant 0 <= i <= |xs|
      invariant Copies(copy, xs, at) && Listed(at) == Objects(xs) - ObjectsFrom(xs, i)
      invariant forall k :: 0 <= k < i && !IsObject(xs[k]) ==> HasPartner(r, k)
    {
      if IsObject(xs[i]) {
        CopiesAdd(copy, xs, at, i);
        copy, at := copy + [xs[i]], at + [i];
      } else {
        PrimitivePartner(xs, ys, i);
        if !Has(ys, xs[i]) {
          assert i in Range(|xs|) - Objects(xs);
          return false, copy, at;
        }
      }
      i := i + 1;
    }
    assert ObjectsFrom(xs, |xs|) == {};
    ok := true;
  }

  method SetEquiv(v: Value, w: Value, m: Memos) returns (r: bool)
    requires Comparable(v, w) && SameShape(v, w) && v.body.SetOf? && Above(m, Least(v, w) - 1)
    modifies m
    ensures m.val1.Keys <= old(m.val1.Keys) && m.val2.Keys <= old(m.val2.Keys)
    ensures NoSlips(v, w) ==> r == SetsEqual(v.body.members, w.body.members)
    decreases Size(v) + Size(w), 2
  {
    var xs, ys := v.body.members, w.body.members;
    var ok, copy, at := CopyObjects(xs, ys);
    SetsEqualByParts(xs, ys);
    if !ok { return false; }
    if |copy| == 0 {
      CopiesEmpty(copy, xs, at);
      SetsEqualWithoutObjects(xs, ys);
      return true;
    }
    r := HuntObjects(v, w, copy, at, m);
  }

  /** Second loop of `setEquiv`: find, and delete, a match for every object of the other side. */
  method HuntObjects(v: Value, w: Value, objects: seq<Value>, ghost indices: seq<int>, m: Memos) returns (r: bool)
    requires Comparable(v, w) && SameShape(v, w) && v.body.SetOf? && Above(m, Least(v, w) - 1)
    requires Copies(objects, v.body.members, indices) && Listed(indices) == Objects(v.body.members)
    modifies m
    ensures m.val1.Keys <= old(m.val1.Keys) && m.val2.Keys <= old(m.val2.Keys)
    ensures NoSlips(v, w) ==>
              r == CanPair(EqualPairs(w.body.members, v.body.members), Objects(w.body.members), Objects(v.body.members))
    decreases Size(v) + Size(w), 1
  {
    ghost var xs := v.body.members;
    var ys := w.body.members;
    var copy := objects;
    ghost var at := indices;
    assert ObjectsFrom(ys, 0) == Objects(ys);
    var j := 0;
    while j < |ys|
      invariant 0 <= j <= |ys|
      invariant m.val1.Keys <= old(m.val1.Keys) && m.val2.Keys <= old(m.val2.Keys)
      invariant Copies(copy, xs, at) && (NoSlips(v, w) ==> Hunting(copy, at, xs, ys, j))
    {
      if IsObject(ys[j]) {
        var found, rest, t := SetHasEqualElement(copy, ys[j], m, v, w, at, j);
        if !found {
          if NoSlips(v, w) { HuntUnmatched(copy, at, xs, ys, j); }
          return false;
        }
        CopiesDelete(copy, xs, at, t);
        if NoSlips(v, w) { HuntMatched(copy, at, xs, ys, j, t); }
        copy, at := rest, at[..t] + at[t + 1..];
      } else {
        assert ObjectsFrom(ys, j) == ObjectsFrom(ys, j + 1);
      }
      j := j + 1;
    }
    if NoSlips(v, w) { HuntOver(copy, at, xs, ys); }
    r := |copy| == 0;
  }

  /** map.get(key), as an index. */
  function Find(fs: seq<Entry>, key: Value): (r: int)
    ensures -1 <= r < |fs|
    ensures r >= 0 ==> SameValueZero(fs[r].key, key)
    ensures r < 0 ==> forall j :: 0 <= j < |fs| ==> !SameValueZero(fs[j].key, key)
  {
    if fs == [] then -1
    else if SameValueZero(fs[|fs| - 1].key, key) then |fs| - 1
    else Find(fs[..|fs| - 1], key)
  }

  lemma PrimitiveEntry(es: seq<Entry>, fs: seq<Entry>, i: nat)
    requires i < |es| && !IsObject(es[i].key) && EntriesOk(es) && EntriesOk(fs)
    ensures HasPartner(EntryPairs(es, fs), i) <==>
            var j := Find(fs, es[i].key); j >= 0 && Equal(es[i].value, fs[j].value)
  {
    var r, j := EntryPairs(es, fs), Find(fs, es[i].key);
    if j >= 0 {
      assert es[i].key != MinusZero && fs[j].key != MinusZero;
      assert fs[j].key == es[i].key;
      assert Equal(es[i].key, fs[j].key);
      if Equal(es[i].value, fs[j].value) {
        assert EntryEqual(es[i], fs[j]);
        assert Related(r, i, j);
      }
    }
    if HasPartner(r, i) {
      var k := Partner(r, i);
      KeysAgree(es[i], fs[k]);
      assert SameValueZero(fs[k].key, es[i].key);
      assert k == j;
    }
  }

  /** The entries with object keys of fs from index j on. */
  ghost function ObjectKeysFrom(fs: seq<Entry>, j: int): set<int> {
    set i | i in ObjectKeys(fs) && i >= j
  }

  ghost predicate HuntingEntries(copy: seq<Entry>, at: seq<int>, es: seq<Entry>, fs: seq<Entry>, j: nat) {
    && Copies(copy, es, at)
    && (CanPair(EntryPairs(fs, es), ObjectKeysFrom(fs, j), Listed(at)) <==>
        CanPair(EntryPairs(fs, es), ObjectKeys(fs), ObjectKeys(es)))
  }

  lemma EntryMatched(copy: seq<Entry>, at: seq<int>, es: seq<Entry>, fs: seq<Entry>, j: nat, t: nat)
    requires HuntingEntries(copy, at, es, fs, j) && j < |fs| && IsObject(fs[j].key)
    requires t < |copy| && EntryEqual(fs[j], copy[t])
    ensures HuntingEntries(copy[..t] + copy[t + 1..], at[..t] + at[t + 1..], es, fs, j + 1)
  {
    var r, i := EntryPairs(fs, es), at[t];
    assert Related(r, j, i);
    EntryExchange(fs, es, j, i);
    CopiesDelete(copy, es, at, t);
    assert i in Listed(at) && j in ObjectKeysFrom(fs, j);
    Greedy(r, ObjectKeysFrom(fs, j), Listed(at), j, i);
    assert ObjectKeysFrom(fs, j) - {j} == ObjectKeysFrom(fs, j + 1);
  }

  lemma EntryUnmatched(copy: seq<Entry>, at: seq<int>, es: seq<Entry>, fs: seq<Entry>, j: nat)
    requires HuntingEntries(copy, at, es, fs, j) && j < |fs| && IsObject(fs[j].key)
    requires forall u :: 0 <= u < |copy| ==> !EntryEqual(fs[j], copy[u])
    ensures !CanPair(EntryPairs(fs, es), ObjectKeys(fs), ObjectKeys(es))
  {
    var r := EntryPairs(fs, es);
    forall i | i in Listed(at) ensures !Related(r, j, i) {
      var t :| 0 <= t < |at| && at[t] == i;
      assert copy[t] == es[i];
    }
    assert j in ObjectKeysFrom(fs, j);
    NoPartner(r, ObjectKeysFrom(fs, j), Listed(at), j);
  }

  lemma EntriesOver(copy: seq<Entry>, at: seq<int>, es: seq<Entry>, fs: seq<Entry>)
    requires HuntingEntries(copy, at, es, fs, |fs|)
    ensures |copy| == 0 <==> CanPair(EntryPairs(fs, es), ObjectKeys(fs), ObjectKeys(es))
  {
    assert ObjectKeysFrom(fs, |fs|) == {};
    CopiesEmpty(copy, es, at);
    NothingLeft(EntryPairs(fs, es), Listed(at));
  }

  /** Looks for an entry of `copy` with an equal key and an equal value, and deletes it; an equal key alone is passed over. */
  method MapHasEqualEntry(copy: seq<Entry>, e: Entry, m: Memos, ghost v: Value, ghost w: Value,
                          ghost at: seq<int>, ghost j: nat)
    returns (found: bool, rest: seq<Entry>, ghost t: nat)
    requires Comparable(v, w) && SameShape(v, w) && v.body.MapOf? && Above(m, Least(v, w) - 1)
    requires Copies(copy, v.body.entries, at) && j < |w.body.entries| && e == w.body.entries[j]
    modifies m
    ensures m.val1.Keys <= old(m.val1.Keys) && m.val2.Keys <= old(m.val2.Keys)
    ensures found ==> t < |copy| && rest == copy[..t] + copy[t + 1..]
    ensures NoSlips(v, w) ==>
              if found then EntryEqual(e, copy[t]) else forall u :: 0 <= u < |copy| ==> !EntryEqual(e, copy[u])
    decreases Size(v) + Size(w), 1
  {
    var i := 0;
    while i < |copy|
      invariant 0 <= i <= |copy|
      invariant m.val1.Keys <= old(m.val1.Keys) && m.val2.Keys <= old(m.val2.Keys)
      invariant NoSlips(v, w) ==> forall u :: 0 <= u < i ==> !EntryEqual(e, copy[u])
    {
      var same := SameEntry(copy[i], e, m, v, w, at[i], j);
      if same { return true, copy[..i] + copy[i + 1..], i; }
      i := i + 1;
    }
    return false, copy, 0;
  }

  method SameEntry(d: Entry, e: Entry, m: Memos, ghost v: Value, ghost w: Value, ghost i: nat, ghost j: nat)
    returns (same: bool)
    requires Comparable(v, w) && SameShape(v, w) && v.body.MapOf? && Above(m, Least(v, w) - 1)
    requires i < |v.body.entries| && d == v.body.entries[i] && j < |w.body.entries| && e == w.body.entries[j]
    modifies m
    ensures m.val1.Keys <= old(m.val1.Keys) && m.val2.Keys <= old(m.val2.Keys)
    ensures NoSlips(v, w) ==> same == EntryEqual(e, d)
    decreases Size(v) + Size(w), 0
  {
    EntryFacts(v, i);
    EntryFacts(w, j);
    ComparableInside(v, w, d.key, e.key);
    ComparableInside(v, w, d.value, e.value);
    same := InnerDeepEqual(e.key, d.key, m);
    if same { same := InnerDeepEqual(e.value, d.value, m); }
  }

  /** An entry whose key is a primitive: `b.has(key)`, then the values compared. */
  method PrimitiveKeyFound(v: Value, w: Value, i: nat, m: Memos) returns (same: bool)
    requires Comparable(v, w) && SameShape(v, w) && v.body.MapOf? && Above(m, Least(v, w) - 1)
    requires i < |v.body.entries| && !IsObject(v.body.entries[i].key)
    modifies m
    ensures m.val1.Keys <= old(m.val1.Keys) && m.val2.Keys <= old(m.val2.Keys)
    ensures NoSlips(v, w) ==> same == HasPartner(EntryPairs(v.body.entries, w.body.entries), i)
    decreases Size(v) + Size(w), 0
  {
    var es, fs := v.body.entries, w.body.entries;
    var j := Find(fs, es[i].key);
    PrimitiveEntry(es, fs, i);
    same := j >= 0;
    if same {
      EntryFacts(v, i);
      EntryFacts(w, j);
      ComparableInside(v, w, es[i].value, fs[j].value);
      same := InnerDeepEqual(es[i].value, fs[j].value, m);
    }
  }

  /** Every primitive key before index i has its entry on the other side. */
  ghost predicate PartnersUpTo(es: seq<Entry>, fs: seq<Entry>, i: nat) {
    forall k :: 0 <= k < i && k < |es| && !IsObject(es[k].key) ==> HasPartner(EntryPairs(es, fs), k)
  }

  lemma PartnersAll(es: seq<Entry>, fs: seq<Entry>, i: nat)
    ensures PartnersUpTo(es, fs, |es|) ==> AllHavePartners(EntryPairs(es, fs), Range(|es|) - ObjectKeys(es))
    ensures i < |es| && !IsObject(es[i].key) && !HasPartner(EntryPairs(es, fs), i) ==>
              !AllHavePartners(EntryPairs(es, fs), Range(|es|) - ObjectKeys(es))
  {
    if i < |es| && !IsObject(es[i].key) { assert i in Range(|es|) - ObjectKeys(es); }
  }

  /** The entries with object keys before index i. */
  ghost predicate Gathered(copy: seq<Entry>, es: seq<Entry>, at: seq<int>, i: nat) {
    Copies(copy, es, at) && Listed(at) == ObjectKeys(es) - ObjectKeysFrom(es, i)
  }

  lemma GatherNone(es: seq<Entry>)
    ensures Gathered([], es, [], 0)
  {
    assert Listed([]) == {};
  }

  lemma GatherOne(copy: seq<Entry>, es: seq<Entry>, at: seq<int>, i: nat)
    requires Gathered(copy, es, at, i) && i < |es|
    ensures if IsObject(es[i].key) then Gathered(copy + [es[i]], es, at + [i], i + 1) else Gathered(copy, es, at, i + 1)
  {
    if IsObject(es[i].key) { CopiesAdd(copy, es, at, i); }
  }

  lemma GatherAll(copy: seq<Entry>, es: seq<Entry>, at: seq<int>)
    requires Gathered(copy, es, at, |es|)
    ensures Copies(copy, es, at) && Listed(at) == ObjectKeys(es)
  {
    assert ObjectKeysFrom(es, |es|) == {};
  }

  /** First loop of `mapEquiv`: copy the entries with object keys, compare the others by key. */
  method CopyObjectKeys(v: Value, w: Value, m: Memos) returns (ok: bool, copy: seq<Entry>, ghost at: seq<int>)
    requires Comparable(v, w) && SameShape(v, w) && v.body.MapOf? && Above(m, Least(v, w) - 1)
    modifies m
    ensures m.val1.Keys <= old(m.val1.Keys) && m.val2.Keys <= old(m.val2.Keys)
    ensures NoSlips(v, w) ==>
              ok == AllHavePartners(EntryPairs(v.body.entries, w.body.entries),
                                    Range(|v.body.entries|) - ObjectKeys(v.body.entries))
    ensures ok ==> Copies(copy, v.body.entries, at) && Listed(at) == ObjectKeys(v.body.entries)
    decreases Size(v) + Size(w), 1
  {
    var es, fs := v.body.entries, w.body.entries;
    hide Comparable, NoSlips, AllHavePartners, HasPartner, Copies, Gathered;
    copy, at := [], [];
    GatherNone(es);
    var i := 0;
    while i < |es|
      invariant 0 <= i <= |es|
      invariant m.val1.Keys <= old(m.val1.Keys) && m.val2.Keys <= old(m.val2.Keys)
      invariant Gathered(copy, es, at, i) && (NoSlips(v, w) ==> PartnersUpTo(es, fs, i))
    {
      GatherOne(copy, es, at, i);
      if IsObject(es[i].key) {
        copy, at := copy + [es[i]], at + [i];
      } else {
        var same := PrimitiveKeyFound(v, w, i, m);
        if !same {
          PartnersAll(es, fs, i);
          return false, copy, at;
        }
      }
      i := i + 1;
    }
    GatherAll(copy, es, at);
    PartnersAll(es, fs, |es|);
    ok := true;
  }

  method MapEquiv(v: Value, w: Value, m: Memos) returns (r: bool)
    requires Comparable(v, w) && SameShape(v, w) && v.body.MapOf? && Above(m, Least(v, w) - 1)
    modifies m
    ensures m.val1.Keys <= old(m.val1.Keys) && m.val2.Keys <= old(m.val2.Keys)
    ensures NoSlips(v, w) ==> r == MapsEqual(v.body.entries, w.body.entries)
    decreases Size(v) + Size(w), 3
  {
    var es, fs := v.body.entries, w.body.entries;
    var ok, copy, at := CopyObjectKeys(v, w, m);
    MapsEqualByParts(es, fs);
    if !ok { return false; }
    if |copy| == 0 {
      CopiesEmpty(copy, es, at);
      MapsEqualWithoutObjects(es, fs);
      return true;
    }
    r := HuntEntries(v, w, copy, at, m);
  }

  /** Second loop of `mapEquiv`. */
  method HuntEntries(v: Value, w: Value, entries: seq<Entry>, ghost indices: seq<int>, m: Memos) returns (r: bool)
    requires Comparable(v, w) && SameShape(v, w) && v.body.MapOf? && Above(m, Least(v, w) - 1)
    requires Copies(entries, v.body.entries, indices) && Listed(indices) == ObjectKeys(v.body.entries)
    modifies m
    ensures m.val1.Keys <= old(m.val1.Keys) && m.val2.Keys <= old(m.val2.Keys)
    ensures NoSlips(v, w) ==>
              r == CanPair(EntryPairs(w.body.entries, v.body.entries), ObjectKeys(w.body.entries), ObjectKeys(v.body.entries))
    decreases Size(v) + Size(w), 2
  {
    ghost var es := v.body.entries;
    var fs := w.body.entries;
    var copy := entries;
    ghost var at := indices;
    assert ObjectKeysFrom(fs, 0) == ObjectKeys(fs);
    var j := 0;
    while j < |fs|
      invariant 0 <= j <= |fs|
      invariant m.val1.Keys <= old(m.val1.Keys) && m.val2.Keys <= old(m.val2.Keys)
      invariant Copies(copy, es, at) && (NoSlips(v, w) ==> HuntingEntries(copy, at, es, fs, j))
    {
      if IsObject(fs[j].key) {
        var found, rest, t := MapHasEqualEntry(copy, fs[j], m, v, w, at, j);
        if !found {
          if NoSlips(v, w) { EntryUnmatched(copy, at, es, fs, j); }
          return false;
        }
        CopiesDelete(copy, es, at, t);
        if NoSlips(v, w) { EntryMatched(copy, at, es, fs, j, t); }
        copy, at := rest, at[..t] + at[t + 1..];
      } else {
        assert ObjectKeysFrom(fs, j) == ObjectKeysFrom(fs, j + 1);
      }
      j := j + 1;
    }
    if NoSlips(v, w) { EntriesOver(copy, at, es, fs); }
    r := |copy| == 0;
  }

  /** No memo to begin with. Deep equality, unless hidden symbols mislead the key test. */
  method IsDeepStrictEqual(v: Value, w: Value) returns (r: bool)
    requires Comparable(v, w)
    ensures NoSlips(v, w) ==> r == Equal(v, w)
    ensures Hollow(v, w) ==> r == KeyTest(v, w)
  {
    r := InnerDeepEqual(v, w, null);
  }

  /** Two objects on which the answer depends on their order, though they are not equal. */
  method OrderMatters() returns (there: bool, back: bool)
    ensures there && !back
    ensures !Equal(Obj(1, 0, [], [7], Plain), Obj(2, 0, [Property(SymbolKey(8), Prim(Null))], [], Plain))
  {
    hide KeyTest, NoSlips, Slips, Slipping;
    HiddenSymbolAsymmetry();
    var v := Obj(1, 0, [], [7], Plain);
    var ps := [Property(SymbolKey(8), Prim(Null))];
    var w := Obj(2, 0, ps, [], Plain);
    assert ps[0].key in Keys(ps);
    there := IsDeepStrictEqual(v, w);
    back := IsDeepStrictEqual(w, v);
  }
}
