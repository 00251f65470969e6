/**
 One-to-one pairings between two finite families of indices under a relation, and the
 exchange argument that makes greedy pairing safe when the relation is an equivalence.
 */
module Pairing {

  type Relation = set<(int, int)>

  predicate Related(r: Relation, j: int, i: int) {
    (j, i) in r
  }

  predicate Index(i: int, n: nat) {
    0 <= i < n
  }

  function Range(n: nat): (s: set<int>)
    ensures forall i :: i in s <==> 0 <= i < n
  {
    set i | 0 <= i < n && Index(i, n)
  }

  ghost predicate Injective(m: map<int, int>) {
    forall i, j :: i in m && j in m && m[i] == m[j] ==> i == j
  }

  function Image(m: map<int, int>): set<int> {
    set j | j in m :: m[j]
  }

  ghost predicate Hit(m: map<int, int>, v: int) {
    exists k :: k in m && m[k] == v
  }

  /** The values of m are exactly iz. */
  ghost predicate Onto(m: map<int, int>, iz: set<int>) {
    && (forall j {:trigger m[j]} :: j in m ==> m[j] in iz)
    && (forall i {:trigger Hit(m, i)} :: i in iz ==> Hit(m, i))
  }

  lemma OntoIsImage(m: map<int, int>, iz: set<int>)
    requires Onto(m, iz)
    ensures Image(m) == iz
  {
    forall i | i in iz ensures i in Image(m) { assert Hit(m, i); }
  }

  ghost function KeyOf(m: map<int, int>, v: int): (k: int)
    requires Hit(m, v)
    ensures k in m && m[k] == v
  {
    var k :| k in m && m[k] == v;
    k
  }

  /** m pairs every index in js with one in iz, one to one and onto, each pair related by r. */
  ghost predicate Pairs(m: map<int, int>, r: Relation, js: set<int>, iz: set<int>) {
    && m.Keys == js && Onto(m, iz) && Injective(m)
    && forall j {:trigger m[j]} :: j in m ==> Related(r, j, m[j])
  }

  ghost predicate CanPair(r: Relation, js: set<int>, iz: set<int>) {
    exists m: map<int, int> :: Pairs(m, r, js, iz)
  }

  // ----- greedy pairing

  /** Whoever may take i may also take anything else that j may take. With an equivalence this is so once j may take i. */
  ghost predicate Exchangeable(r: Relation, j: int, i: int) {
    forall j', i' :: Related(r, j, i') && Related(r, j', i) ==> Related(r, j', i')
  }

  lemma PairsWithout(m: map<int, int>, r: Relation, js: set<int>, iz: set<int>, j: int)
    requires Pairs(m, r, js, iz) && j in m
    ensures Pairs(m - {j}, r, js - {j}, iz - {m[j]})
  {
    var m' := m - {j};
    forall i | i in iz - {m[j]} ensures Hit(m', i) {
      assert Hit(m, i);
      var k := KeyOf(m, i);
      assert k in m' && m'[k] == i;
    }
  }

  lemma PairsWith(m: map<int, int>, r: Relation, js: set<int>, iz: set<int>, j: int, i: int)
    requires Pairs(m, r, js, iz) && j !in js && i !in iz && Related(r, j, i)
    ensures Pairs(m[j := i], r, js + {j}, iz + {i})
  {
    var m' := m[j := i];
    assert j in m' && m'[j] == i;
    forall v | v in iz ensures Hit(m', v) {
      assert Hit(m, v);
      var k := KeyOf(m, v);
      assert k in m' && m'[k] == v;
    }
  }

  lemma GreedyKeeps(m: map<int, int>, r: Relation, js: set<int>, iz: set<int>, j: int, i: int)
    requires Pairs(m, r, js, iz)
    requires j in js && i in iz && Exchangeable(r, j, i)
    ensures CanPair(r, js - {j}, iz - {i})
  {
    PairsWithout(m, r, js, iz, j);
    if m[j] != i {
      assert Hit(m, i);
      var i', j' := m[j], KeyOf(m, i);
      assert Related(r, j', i');
      var m1 := m - {j};
      PairsWithout(m1, r, js - {j}, iz - {i'}, j');
      PairsWith(m1 - {j'}, r, js - {j} - {j'}, iz - {i'} - {i}, j', i');
      assert js - {j} - {j'} + {j'} == js - {j};
      assert iz - {i'} - {i} + {i'} == iz - {i};
    }
  }

  /** Pairing j with i, once they are related, never spoils the rest. */
  lemma Greedy(r: Relation, js: set<int>, iz: set<int>, j: int, i: int)
    requires j in js && i in iz && Related(r, j, i) && Exchangeable(r, j, i)
    ensures CanPair(r, js, iz) <==> CanPair(r, js - {j}, iz - {i})
  {
    if CanPair(r, js, iz) {
      var m :| Pairs(m, r, js, iz);
      GreedyKeeps(m, r, js, iz, j, i);
    }
    if CanPair(r, js - {j}, iz - {i}) {
      var m :| Pairs(m, r, js - {j}, iz - {i});
      PairsWith(m, r, js - {j}, iz - {i}, j, i);
      assert js - {j} + {j} == js && iz - {i} + {i} == iz;
    }
  }

  lemma PairedHasPartner(m: map<int, int>, r: Relation, js: set<int>, iz: set<int>, j: int)
    requires Pairs(m, r, js, iz) && j in js
    ensures exists i :: i in iz && Related(r, j, i)
  {
    var i := m[j];
    assert i in iz && Related(r, j, i);
  }

  lemma NoPartner(r: Relation, js: set<int>, iz: set<int>, j: int)
    requires j in js
    requires forall i :: i in iz ==> !Related(r, j, i)
    ensures !CanPair(r, js, iz)
  {
    forall m | Pairs(m, r, js, iz) ensures m[j] !in iz {}
  }

  lemma NothingLeft(r: Relation, iz: set<int>)
    ensures CanPair(r, {}, iz) <==> iz == {}
  {
    var m: map<int, int> := map[];
    assert iz == {} ==> Pairs(m, r, {}, iz);
    forall m: map<int, int> | Pairs(m, r, {}, iz) ensures iz == {} {
      OntoIsImage(m, iz);
      assert Image(m) == {};
    }
  }

  // ----- turning pairings round and composing them

  ghost function Inverse(m: map<int, int>): (inv: map<int, int>)
    ensures inv.Keys == Image(m)
    ensures forall i :: i in inv ==> inv[i] in m && m[inv[i]] == i
  {
    map i | i in Image(m) :: KeyOf(m, i)
  }

  ghost predicate TurnsRound(r: Relation, s: Relation) {
    forall j, i :: Related(r, j, i) ==> Related(s, i, j)
  }

  ghost predicate Chains(r: Relation, s: Relation, t: Relation) {
    forall i, j, k :: Related(r, i, j) && Related(s, j, k) ==> Related(t, i, k)
  }

  lemma CanPairInverse(r: Relation, s: Relation, js: set<int>, iz: set<int>)
    requires CanPair(r, js, iz) && TurnsRound(r, s)
    ensures CanPair(s, iz, js)
  {
    var m :| Pairs(m, r, js, iz);
    OntoIsImage(m, iz);
    var inv := Inverse(m);
    forall j | j in js ensures Hit(inv, j) { assert m[j] in inv && inv[m[j]] == j; }
    forall i | i in inv ensures inv[i] in js && Related(s, i, inv[i]) { assert Related(r, inv[i], m[inv[i]]); }
    assert Pairs(inv, s, iz, js);
  }

  ghost function Compose(m: map<int, int>, n: map<int, int>): map<int, int>
    requires Onto(m, n.Keys)
  {
    map j | j in m :: n[m[j]]
  }

  lemma CanPairCompose(r: Relation, s: Relation, t: Relation, iz: set<int>, js: set<int>, ks: set<int>)
    requires CanPair(r, iz, js) && CanPair(s, js, ks) && Chains(r, s, t)
    ensures CanPair(t, iz, ks)
  {
    var m :| Pairs(m, r, iz, js);
    var n :| Pairs(n, s, js, ks);
    var c := Compose(m, n);
    forall k | k in ks ensures Hit(c, k) {
      assert Hit(n, k);
      var j := KeyOf(n, k);
      assert Hit(m, j);
      var i := KeyOf(m, j);
      assert i in c && c[i] == k;
    }
    assert Pairs(c, t, iz, ks);
  }

  // ----- splitting a pairing in two

  ghost function Pick<X>(s: set<X>): (x: X)
    requires s != {}
    ensures x in s
  {
    var x :| x in s;
    x
  }

  lemma {:induction false} RangeSize(n: nat)
    ensures |Range(n)| == n
  {
    if n > 0 {
      RangeSize(n - 1);
      assert Range(n) == Range(n - 1) + {n - 1};
    }
  }

  lemma {:induction false} ImageSize(m: map<int, int>)
    requires Injective(m)
    ensures |Image(m)| == |m.Keys|
  {
    if m.Keys == {} {
      assert Image(m) == {};
    } else {
      var j := Pick(m.Keys);
      var m' := m - {j};
      ImageSize(m');
      assert m.Keys == m'.Keys + {j};
      assert Image(m) == Image(m') + {m[j]};
    }
  }

  lemma {:induction false} FullSubset<X>(s: set<X>, t: set<X>)
    requires s <= t && |s| == |t|
    ensures s == t
  {
    if s != {} {
      var x := Pick(s);
      FullSubset(s - {x}, t - {x});
    }
  }

  lemma Remainder(s: set<int>, t: set<int>)
    requires t <= s
    ensures |s - t| == |s| - |t|
  {
    assert s == (s - t) + t;
  }

  lemma PairsUnion(m: map<int, int>, n: map<int, int>, r: Relation, js: set<int>, iz: set<int>, js': set<int>, iz': set<int>)
    requires Pairs(m, r, js, iz) && Pairs(n, r, js', iz')
    requires js !! js' && iz !! iz'
    ensures Pairs(m + n, r, js + js', iz + iz')
  {
    var u := m + n;
    forall j | j in m ensures u[j] == m[j] && u[j] in iz { assert j !in n; }
    forall j | j in n ensures u[j] == n[j] && u[j] in iz' {}
    forall i | i in iz ensures Hit(u, i) { assert Hit(m, i); var j := KeyOf(m, i); assert j in u && u[j] == i; }
    forall i | i in iz' ensures Hit(u, i) { assert Hit(n, i); var j := KeyOf(n, i); assert j in u && u[j] == i; }
    forall i, j | i in u && j in u && u[i] == u[j] ensures i == j {}
  }

  /** Selected indices are related to selected ones only, and the others never share a partner. */
  ghost predicate Separated(r: Relation, src: set<int>, dst: set<int>, iz: set<int>, js: set<int>) {
    && iz <= src && js <= dst && |src| == |dst|
    && (forall i, j :: Related(r, i, j) ==> i in src && j in dst && (i in iz <==> j in js))
    && (forall i, i', j :: Related(r, i, j) && Related(r, i', j) && i !in iz ==> i == i')
  }

  ghost predicate AllHavePartners(r: Relation, iz: set<int>) {
    forall i :: i in iz ==> HasPartner(r, i)
  }

  ghost predicate HasPartner(r: Relation, i: int) {
    exists j :: Related(r, i, j)
  }

  ghost function Partner(r: Relation, i: int): (j: int)
    requires HasPartner(r, i)
    ensures Related(r, i, j)
  {
    var j :| Related(r, i, j);
    j
  }

  lemma SplitForward(m: map<int, int>, r: Relation, src: set<int>, dst: set<int>, iz: set<int>, js: set<int>)
    requires Separated(r, src, dst, iz, js) && Pairs(m, r, src, dst)
    ensures CanPair(r, iz, js)
  {
    var m' := m - (src - iz);
    assert m'.Keys == iz;
    forall j | j in js ensures Hit(m', j) {
      assert Hit(m, j);
      var i := KeyOf(m, j);
      assert i in m' && m'[i] == j;
    }
    assert Pairs(m', r, iz, js);
  }

  lemma PairOthers(m: map<int, int>, r: Relation, src: set<int>, dst: set<int>, iz: set<int>, js: set<int>)
    requires Separated(r, src, dst, iz, js) && |iz| == |js|
    requires m.Keys == src - iz && forall i :: i in m ==> Related(r, i, m[i])
    ensures Pairs(m, r, src - iz, dst - js)
  {
    assert Image(m) <= dst - js;
    ImageSize(m);
    Remainder(src, iz);
    Remainder(dst, js);
    FullSubset(Image(m), dst - js);
    forall j | j in dst - js ensures Hit(m, j) { assert j in Image(m); }
  }

  ghost function Partners(r: Relation, iz: set<int>): (m: map<int, int>)
    requires AllHavePartners(r, iz)
    ensures m.Keys == iz && forall i :: i in m ==> Related(r, i, m[i])
  {
    map i | i in iz :: Partner(r, i)
  }

  lemma PairedSameSize(m: map<int, int>, r: Relation, js: set<int>, iz: set<int>)
    requires Pairs(m, r, js, iz)
    ensures |js| == |iz|
  {
    ImageSize(m);
    OntoIsImage(m, iz);
  }

  lemma Join(m: map<int, int>, rest: map<int, int>, r: Relation, src: set<int>, dst: set<int>, iz: set<int>, js: set<int>)
    requires iz <= src && js <= dst && Pairs(m, r, iz, js) && Pairs(rest, r, src - iz, dst - js)
    ensures CanPair(r, src, dst)
  {
    PairsUnion(m, rest, r, iz, js, src - iz, dst - js);
    assert iz + (src - iz) == src && js + (dst - js) == dst;
  }

  lemma SplitBack(m: map<int, int>, r: Relation, src: set<int>, dst: set<int>, iz: set<int>, js: set<int>)
    requires Separated(r, src, dst, iz, js) && Pairs(m, r, iz, js)
    requires AllHavePartners(r, src - iz)
    ensures CanPair(r, src, dst)
  {
    var rest := Partners(r, src - iz);
    PairedSameSize(m, r, iz, js);
    PairOthers(rest, r, src, dst, iz, js);
    Join(m, rest, r, src, dst, iz, js);
  }

  /**
   Pairing everything with everything is pairing the selected indices, provided each of the
   others has a partner: there is room for them because both sides have the same size.
   */
  lemma Split(r: Relation, src: set<int>, dst: set<int>, iz: set<int>, js: set<int>)
    requires Separated(r, src, dst, iz, js)
    ensures CanPair(r, src, dst) <==> CanPair(r, iz, js) && AllHavePartners(r, src - iz)
  {
    if CanPair(r, src, dst) {
      var m :| Pairs(m, r, src, dst);
      SplitForward(m, r, src, dst, iz, js);
      forall i | i in src - iz ensures HasPartner(r, i) { PairedHasPartner(m, r, src, dst, i); }
    }
    if CanPair(r, iz, js) && AllHavePartners(r, src - iz) {
      var m :| Pairs(m, r, iz, js);
      SplitBack(m, r, src, dst, iz, js);
    }
  }
}
