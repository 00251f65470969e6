/**
 What strict deep equality needs to know of an object before it looks at the contents: the
 size that bounds the recursion, and the comparison of own keys that `keyCheck` makes.
 */
module DeepKeys {
  import opened Pairing
  import opened DeepValue
  import opened Sets

  // ----- sizes: what makes the recursion end, and what keeps the memo from ever being hit

  ghost function Size(v: Value): nat
    decreases v
  {
    match v
    case Prim(_) => 1
    case Obj(_, _, props, _, body) => 1 + PropsSize(props) + BodySize(body)
  }

  ghost function PropSize(p: Property): nat
    decreases p
  {
    Size(p.value)
  }

  ghost function PropsSize(ps: seq<Property>): nat
    decreases ps
  {
    if ps == [] then 0 else PropSize(ps[0]) + PropsSize(ps[1..])
  }

  ghost function EntrySize(e: Entry): nat
    decreases e
  {
    Size(e.key) + Size(e.value)
  }

  ghost function EntriesSize(es: seq<Entry>): nat
    decreases es
  {
    if es == [] then 0 else EntrySize(es[0]) + EntriesSize(es[1..])
  }

  ghost function ItemsSize(xs: seq<Value>): nat
    decreases xs
  {
    if xs == [] then 0 else Size(xs[0]) + ItemsSize(xs[1..])
  }

  ghost function BodySize(b: Body): nat
    decreases b
  {
    match b
    case Plain => 0
    case Arr(xs) => ItemsSize(xs)
    case SetOf(xs) => ItemsSize(xs)
    case MapOf(es) => EntriesSize(es)
  }

  lemma {:induction false} ItemSmaller(xs: seq<Value>, i: nat)
    requires i < |xs|
    ensures Size(xs[i]) <= ItemsSize(xs)
  {
    if i > 0 {
      ItemSmaller(xs[1..], i - 1);
      assert xs[1..][i - 1] == xs[i];
    }
  }

  lemma {:induction false} EntrySmaller(es: seq<Entry>, i: nat)
    requires i < |es|
    ensures Size(es[i].key) + Size(es[i].value) <= EntriesSize(es)
  {
    if i > 0 {
      EntrySmaller(es[1..], i - 1);
      assert es[1..][i - 1] == es[i];
    }
  }

  lemma {:induction false} PropSmaller(ps: seq<Property>, i: nat)
    requires i < |ps|
    ensures Size(ps[i].value) <= PropsSize(ps)
  {
    if i > 0 {
      PropSmaller(ps[1..], i - 1);
      assert ps[1..][i - 1] == ps[i];
    }
  }

  // ----- own keys

  function NamesOf(ps: seq<Property>): seq<Key> {
    if ps == [] then [] else (if ps[0].key.Name? then [ps[0].key] else []) + NamesOf(ps[1..])
  }

  function SymbolsOf(ps: seq<Property>): seq<Key> {
    if ps == [] then [] else (if ps[0].key.Name? then [] else [ps[0].key]) + SymbolsOf(ps[1..])
  }

  function KeyList(ps: seq<Property>): (ks: seq<Key>)
    ensures |ks| == |ps| && forall i :: 0 <= i < |ps| ==> ks[i] == ps[i].key
  {
    seq(|ps|, i requires 0 <= i < |ps| => ps[i].key)
  }

  /** getOwnPropertySymbols: enumerable or not. */
  function OwnSymbols(v: Value): seq<Key>
    requires v.Obj?
  {
    SymbolsOf(v.props) + seq(|v.hidden|, i requires 0 <= i < |v.hidden| => SymbolKey(v.hidden[i]))
  }

  /** propertyIsEnumerable. */
  predicate Enumerable(v: Value, k: Key)
    requires v.Obj?
  {
    k in Keys(v.props)
  }

  function Get(v: Value, k: Key): (x: Value)
    requires v.Obj? && Enumerable(v, k)
    ensures exists i :: 0 <= i < |v.props| && v.props[i] == Property(k, x)
  {
    Lookup(v.props, k)
  }

  function Lookup(ps: seq<Property>, k: Key): (x: Value)
    requires exists i :: 0 <= i < |ps| && ps[i].key == k
    ensures exists i :: 0 <= i < |ps| && ps[i] == Property(k, x)
  {
    if ps[0].key == k then ps[0].value
    else
      var i :| 0 <= i < |ps| && ps[i].key == k;
      assert ps[1..][i - 1].key == k;
      var x := Lookup(ps[1..], k);
      assert exists i :: 0 <= i < |ps| && ps[i] == Property(k, x) by {
        var j :| 0 <= j < |ps[1..]| && ps[1..][j] == Property(k, x);
        assert ps[j + 1] == Property(k, x);
      }
      x
  }

  /** An object whose property list is one the host can produce. */
  ghost predicate OwnKeys(v: Value) {
    v.Obj? && DistinctProps(v.props) && HiddenApart(v.props, v.hidden)
  }

  ghost function NameSet(ps: seq<Property>): set<Key> {
    set k | k in Keys(ps) && k.Name?
  }

  ghost function SymbolSet(ps: seq<Property>): set<Key> {
    set k | k in Keys(ps) && k.SymbolKey?
  }

  ghost function HiddenSet(v: Value): set<Key>
    requires v.Obj?
  {
    set i | 0 <= i < |v.hidden| :: SymbolKey(v.hidden[i])
  }

  lemma KeysOfRest(ps: seq<Property>)
    requires ps != [] && DistinctProps(ps)
    ensures DistinctProps(ps[1..])
    ensures Keys(ps) == Keys(ps[1..]) + {ps[0].key} && ps[0].key !in Keys(ps[1..])
  {
    var k, rest := ps[0].key, ps[1..];
    forall i | 0 <= i < |rest| ensures rest[i].key in Keys(ps) && rest[i].key != k { assert rest[i] == ps[i + 1]; }
    assert ps[0].key in Keys(ps);
    forall i | 0 <= i < |ps| ensures ps[i].key in Keys(rest) + {k} {
      if i > 0 { assert rest[i - 1] == ps[i]; }
    }
  }

  lemma {:induction false} NameCount(ps: seq<Property>)
    requires DistinctProps(ps)
    ensures |NamesOf(ps)| == |NameSet(ps)| && forall k :: k in NamesOf(ps) <==> k in NameSet(ps)
  {
    if ps != [] {
      var k, rest := ps[0].key, ps[1..];
      KeysOfRest(ps);
      NameCount(rest);
      if k.Name? {
        assert NameSet(ps) == NameSet(rest) + {k};
        assert NamesOf(ps) == [k] + NamesOf(rest);
      } else {
        assert NameSet(ps) == NameSet(rest);
        assert NamesOf(ps) == NamesOf(rest);
      }
    }
  }

  lemma {:induction false} SymbolCount(ps: seq<Property>)
    requires DistinctProps(ps)
    ensures |SymbolsOf(ps)| == |SymbolSet(ps)| && forall k :: k in SymbolsOf(ps) <==> k in SymbolSet(ps)
  {
    if ps != [] {
      var k, rest := ps[0].key, ps[1..];
      KeysOfRest(ps);
      SymbolCount(rest);
      if k.Name? {
        assert SymbolSet(ps) == SymbolSet(rest);
        assert SymbolsOf(ps) == SymbolsOf(rest);
      } else {
        assert SymbolSet(ps) == SymbolSet(rest) + {k};
        assert SymbolsOf(ps) == [k] + SymbolsOf(rest);
      }
    }
  }

  lemma {:induction false} HiddenCount(h: seq<nat>)
    requires forall i, j :: 0 <= i < j < |h| ==> h[i] != h[j]
    ensures |set i | 0 <= i < |h| :: SymbolKey(h[i])| == |h|
  {
    var all := set i | 0 <= i < |h| :: SymbolKey(h[i]);
    if h != [] {
      var n := |h| - 1;
      HiddenCount(h[..n]);
      var rest := set i | 0 <= i < |h[..n]| :: SymbolKey(h[..n][i]);
      assert all == rest + {SymbolKey(h[n])};
    }
  }

  ghost predicate NameTest(v: Value, w: Value)
    requires v.Obj? && w.Obj?
  {
    |NameSet(v.props)| == |NameSet(w.props)| && NameSet(v.props) <= NameSet(w.props)
  }

  ghost predicate SymbolTest(v: Value, w: Value)
    requires v.Obj? && w.Obj?
  {
    var (e, h, e', h') := (SymbolSet(v.props), HiddenSet(v), SymbolSet(w.props), HiddenSet(w));
    if e + h != {} then
      e <= e' && h !! e' && (|e| + |h| == |e'| + |h'| || |e'| == |e|)
    else
      e' == {}
  }

  /**
   The key comparison of `keyCheck` in its five-argument form, as the code makes it: names
   by count and inclusion, symbols by inclusion and by a count that is skipped when both
   objects own equally many symbols.
   */
  ghost predicate KeyTest(v: Value, w: Value)
    requires v.Obj? && w.Obj?
  {
    NameTest(v, w) && SymbolTest(v, w)
  }

  /** The family on which that test accepts different keys: w has enumerable symbols that v lacks, and v as many hidden ones more. */
  ghost predicate Slips(v: Value, w: Value)
    requires v.Obj? && w.Obj?
  {
    && NameSet(v.props) == NameSet(w.props)
    && var (e, h, e', h') := (SymbolSet(v.props), HiddenSet(v), SymbolSet(w.props), HiddenSet(w));
       h != {} && e < e' && h !! e' && |e| + |h| == |e'| + |h'|
  }

  lemma KeysSplit(ps: seq<Property>, qs: seq<Property>)
    ensures Keys(ps) == Keys(qs) <==> NameSet(ps) == NameSet(qs) && SymbolSet(ps) == SymbolSet(qs)
  {
    assert Keys(ps) == NameSet(ps) + SymbolSet(ps);
    assert Keys(qs) == NameSet(qs) + SymbolSet(qs);
  }

  lemma Larger(s: set<Key>, t: set<Key>)
    requires s < t
    ensures |s| < |t|
  {
    if |s| == |t| { FullSubset(s, t); } else if |s| > |t| { SubsetSize(s, t); }
  }

  /** The key test means "the same enumerable keys" exactly outside that family. */
  lemma KeyTestExact(v: Value, w: Value)
    requires OwnKeys(v) && OwnKeys(w)
    ensures (KeyTest(v, w) <==> Keys(v.props) == Keys(w.props)) <==> !Slips(v, w)
  {
    KeysSplit(v.props, w.props);
    var (n, n') := (NameSet(v.props), NameSet(w.props));
    var (e, h, e', h') := (SymbolSet(v.props), HiddenSet(v), SymbolSet(w.props), HiddenSet(w));
    if n <= n' && |n| == |n'| { FullSubset(n, n'); }
    if e < e' { Larger(e, e'); }
    assert h !! e;
    if h == {} { assert |h| == 0; }
  }

  /** With nothing hidden the family is empty, so the test is an equality of key sets. */
  lemma KeyTestOpen(v: Value, w: Value)
    requires OwnKeys(v) && OwnKeys(w) && v.hidden == []
    ensures KeyTest(v, w) <==> Keys(v.props) == Keys(w.props)
  {
    KeyTestExact(v, w);
    assert HiddenSet(v) == {};
  }

  /** Two objects whose keys the code compares by that test, and whose keys it takes for the same though they are not. */
  ghost predicate Slipping(a: Value, b: Value) {
    a.Obj? && b.Obj? && a.proto == b.proto && !a.body.Arr? && !b.body.Arr? && (Slips(a, b) || Slips(b, a))
  }

  /** No object in v and no object in w mislead the test, in either order. */
  ghost predicate NoSlips(v: Value, w: Value) {
    forall a, b {:trigger Slipping(a, b)} :: a in Parts(v) && b in Parts(w) ==> !Slipping(a, b)
  }

  lemma NoSlipsInside(v: Value, w: Value, c: Value, d: Value)
    requires NoSlips(v, w) && Parts(c) <= Parts(v) && Parts(d) <= Parts(w)
    ensures NoSlips(c, d) && NoSlips(d, c)
  {
    forall a, b | a in Parts(d) && b in Parts(c) ensures !Slipping(a, b) { assert !Slipping(b, a); }
  }

  /** The test is not symmetric: an object with one hidden symbol passes against one with one enumerable symbol. */
  lemma HiddenSymbolAsymmetry()
    ensures var v := Obj(1, 0, [], [7], Plain);
            var w := Obj(2, 0, [Property(SymbolKey(8), Prim(Null))], [], Plain);
            OwnKeys(v) && OwnKeys(w) && Slips(v, w) && KeyTest(v, w) && !KeyTest(w, v)
  {
    var ps := [Property(SymbolKey(8), Prim(Null))];
    var v, w := Obj(1, 0, [], [7], Plain), Obj(2, 0, ps, [], Plain);
    assert ps[0].key in Keys(ps);
    assert Keys(ps) == {SymbolKey(8)} && Keys(v.props) == {};
    assert NameSet(ps) == {} && SymbolSet(ps) == {SymbolKey(8)} && NameSet(v.props) == {} && SymbolSet(v.props) == {};
    assert v.hidden[0] == 7;
    assert HiddenSet(v) == {SymbolKey(7)} && HiddenSet(w) == {};
  }

  /** The same number of names, and every name of v enumerable in w. */
  method CheckNames(v: Value, w: Value) returns (ok: bool)
    requires OwnKeys(v) && OwnKeys(w)
    ensures ok == NameTest(v, w)
  {
    NameCount(v.props);
    NameCount(w.props);
    var keys := NamesOf(v.props);
    if |keys| != |NamesOf(w.props)| { return false; }
    var i := 0;
    while i < |keys|
      invariant 0 <= i <= |keys|
      invariant forall j :: 0 <= j < i ==> keys[j] in NameSet(w.props)
    {
      assert keys[i] in NameSet(v.props);
      InNameSet(w, keys[i]);
      if !Enumerable(w, keys[i]) {
        return false;
      }
      i := i + 1;
    }
    forall k | k in NameSet(v.props) ensures k in NameSet(w.props) { assert k in keys; }
    ok := true;
  }

  /** The own symbols of v: the enumerable ones first, here. The order plays no part. */
  method GetOwnPropertySymbols(v: Value) returns (symbols: seq<Key>)
    requires OwnKeys(v)
    ensures |symbols| == |SymbolSet(v.props)| + |HiddenSet(v)|
    ensures |SymbolsOf(v.props)| <= |symbols| && symbols[..|SymbolsOf(v.props)|] == SymbolsOf(v.props)
    ensures forall j :: 0 <= j < |symbols| ==> SymbolAt(v, symbols[j], j)
    ensures forall k :: k in symbols <==> k in SymbolSet(v.props) + HiddenSet(v)
  {
    symbols := OwnSymbols(v);
    SymbolCounts(v);
    forall j | 0 <= j < |symbols| ensures SymbolAt(v, symbols[j], j) { OwnSymbol(v, j); }
    forall k | k in SymbolSet(v.props) + HiddenSet(v) ensures k in symbols { EverySymbol(v, k); }
    forall k | k in symbols ensures k in SymbolSet(v.props) + HiddenSet(v) {
      var j :| 0 <= j < |symbols| && symbols[j] == k;
      assert SymbolAt(v, symbols[j], j);
    }
  }

  ghost predicate SymbolAt(v: Value, k: Key, j: nat)
    requires v.Obj?
  {
    && k.SymbolKey?
    && (j < |SymbolsOf(v.props)| <==> k in SymbolSet(v.props))
    && (j < |SymbolsOf(v.props)| <==> k !in HiddenSet(v))
  }

  /** Every symbol is enumerable on both sides or on neither; `kept` are those that are. */
  method ScanSymbols(symbols: seq<Key>, a: set<Key>, b: set<Key>, ghost n: nat) returns (ok: bool, kept: seq<Key>)
    requires n <= |symbols| && forall j :: 0 <= j < |symbols| ==> (symbols[j] in a <==> j < n)
    ensures ok == forall j :: 0 <= j < |symbols| ==> (symbols[j] in a <==> symbols[j] in b)
    ensures ok ==> kept == symbols[..n]
  {
    kept := [];
    var i := 0;
    while i < |symbols|
      invariant 0 <= i <= |symbols|
      invariant kept == symbols[..if i <= n then i else n]
      invariant forall j :: 0 <= j < i ==> (symbols[j] in a <==> symbols[j] in b)
    {
      if symbols[i] in a {
        if symbols[i] !in b { return false, kept; }
        kept := kept + [symbols[i]];
      } else if symbols[i] in b {
        return false, kept;
      }
      i := i + 1;
    }
    ok := true;
  }

  /** Symbols, enumerable or not; `kept` are the enumerable ones of v. */
  method CheckSymbols(v: Value, w: Value) returns (ok: bool, kept: seq<Key>)
    requires OwnKeys(v) && OwnKeys(w)
    ensures ok == SymbolTest(v, w)
    ensures ok ==> kept == SymbolsOf(v.props)
  {
    var symbols := GetOwnPropertySymbols(v);
    var symbols' := GetOwnPropertySymbols(w);
    SymbolCount(v.props);
    SymbolCount(w.props);
    ghost var own, e, e' := SymbolsOf(v.props), SymbolSet(v.props), SymbolSet(w.props);
    if |symbols| == 0 {
      assert e + HiddenSet(v) == {};
      ok, kept := !(|symbols'| != 0 && |SymbolsOf(w.props)| != 0), [];
      return;
    }
    assert symbols[0] in e + HiddenSet(v);
    ok, kept := ScanSymbols(symbols, Keys(v.props), Keys(w.props), |own|);
    SymbolsAgree(v, w, symbols);
    if ok && |symbols| != |symbols'| && |SymbolsOf(w.props)| != |kept| { ok := false; }
  }

  lemma SymbolsAgree(v: Value, w: Value, symbols: seq<Key>)
    requires OwnKeys(v) && w.Obj?
    requires forall k :: k in symbols <==> k in SymbolSet(v.props) + HiddenSet(v)
    requires forall j :: 0 <= j < |symbols| ==> SymbolAt(v, symbols[j], j)
    ensures (forall j :: 0 <= j < |symbols| ==> (symbols[j] in Keys(v.props) <==> symbols[j] in Keys(w.props))) <==>
            SymbolSet(v.props) <= SymbolSet(w.props) && HiddenSet(v) !! SymbolSet(w.props)
  {
    var (e, h, e') := (SymbolSet(v.props), HiddenSet(v), SymbolSet(w.props));
    if forall j :: 0 <= j < |symbols| ==> (symbols[j] in Keys(v.props) <==> symbols[j] in Keys(w.props)) {
      forall k | k in e + h ensures k in e <==> k in e' {
        var j :| 0 <= j < |symbols| && symbols[j] == k;
        assert SymbolAt(v, symbols[j], j);
      }
      forall k | k in h ensures k !in e {
        assert k in e + h;
        var j :| 0 <= j < |symbols| && symbols[j] == k;
        assert SymbolAt(v, symbols[j], j);
      }
    }
    if e <= e' && h !! e' {
      forall j | 0 <= j < |symbols| ensures symbols[j] in Keys(v.props) <==> symbols[j] in Keys(w.props) {
        assert SymbolAt(v, symbols[j], j);
        assert symbols[j] in e + h;
      }
    }
  }

  lemma InNameSet(w: Value, k: Key)
    requires w.Obj? && k.Name?
    ensures Enumerable(w, k) <==> k in NameSet(w.props)
  {}

  lemma SymbolCounts(v: Value)
    requires OwnKeys(v)
    ensures |SymbolsOf(v.props)| == |SymbolSet(v.props)|
    ensures |OwnSymbols(v)| == |SymbolSet(v.props)| + |HiddenSet(v)|
    ensures |OwnSymbols(v)| == 0 <==> SymbolSet(v.props) + HiddenSet(v) == {}
  {
    SymbolCount(v.props);
    HiddenCount(v.hidden);
    var e, h := SymbolSet(v.props), HiddenSet(v);
    assert e + h == {} ==> e == {} && h == {};
    if |e| == 0 && |h| == 0 { assert e == {} && h == {}; }
  }

  lemma OwnSymbol(v: Value, i: nat)
    requires OwnKeys(v) && i < |OwnSymbols(v)|
    ensures var k := OwnSymbols(v)[i];
            && k.SymbolKey?
            && (Enumerable(v, k) <==> i < |SymbolsOf(v.props)|)
            && (Enumerable(v, k) <==> k in SymbolSet(v.props))
            && (!Enumerable(v, k) <==> k in HiddenSet(v))
  {
    SymbolCount(v.props);
    var k := OwnSymbols(v)[i];
    if i < |SymbolsOf(v.props)| {
      assert k in SymbolsOf(v.props);
      assert k in Keys(v.props);
    } else {
      var j := i - |SymbolsOf(v.props)|;
      assert k == SymbolKey(v.hidden[j]);
    }
  }

  lemma EverySymbol(v: Value, k: Key)
    requires OwnKeys(v) && k in SymbolSet(v.props) + HiddenSet(v)
    ensures k in OwnSymbols(v)
  {
    SymbolCount(v.props);
    var symbols, own := OwnSymbols(v), SymbolsOf(v.props);
    if k in SymbolSet(v.props) {
      var j :| 0 <= j < |own| && own[j] == k;
      assert symbols[j] == k;
    } else {
      var j :| 0 <= j < |v.hidden| && SymbolKey(v.hidden[j]) == k;
      assert symbols[|own| + j] == k;
    }
  }
}
