/**
 Edit scripts: the values `diff` returns, what it means for one to turn a sequence into
 another, and the longest-common-subsequence table that bounds how cheap one can be.
 */
module EditScript {
  import opened Sequences

  datatype DiffType = Removed | Common | Added

  datatype DiffResult<+T> = DiffResult(kind: DiffType, value: T)

  /** The entries that stand for the actual value: removed and common ones, in order. */
  function OldSide<T>(s: seq<DiffResult<T>>): seq<T> {
    if s == [] then []
    else if s[0].kind.Added? then OldSide(s[1..])
    else [s[0].value] + OldSide(s[1..])
  }

  /** The entries that stand for the expected value: added and common ones, in order. */
  function NewSide<T>(s: seq<DiffResult<T>>): seq<T> {
    if s == [] then []
    else if s[0].kind.Removed? then NewSide(s[1..])
    else [s[0].value] + NewSide(s[1..])
  }

  /** The number of entries that are not common. */
  function Cost<T>(s: seq<DiffResult<T>>): nat {
    if s == [] then 0
    else (if s[0].kind.Common? then 0 else 1) + Cost(s[1..])
  }

  ghost predicate Transforms<T>(s: seq<DiffResult<T>>, a: seq<T>, b: seq<T>) {
    OldSide(s) == a && NewSide(s) == b
  }

  /** No entry of the first kind is directly followed by one of the second. */
  ghost predicate NeverBefore<T>(s: seq<DiffResult<T>>, first: DiffType, second: DiffType) {
    forall i :: 0 < i < |s| && s[i].kind == second ==> s[i - 1].kind != first
  }

  lemma {:induction false} OldSideConcat<T>(s: seq<DiffResult<T>>, t: seq<DiffResult<T>>)
    ensures OldSide(s + t) == OldSide(s) + OldSide(t)
  {
    if s == [] {
      assert s + t == t;
    } else {
      assert (s + t)[0] == s[0] && (s + t)[1..] == s[1..] + t;
      OldSideConcat(s[1..], t);
      Regroup([s[0].value], OldSide(s[1..]), OldSide(t));
    }
  }

  lemma {:induction false} NewSideConcat<T>(s: seq<DiffResult<T>>, t: seq<DiffResult<T>>)
    ensures NewSide(s + t) == NewSide(s) + NewSide(t)
  {
    if s == [] {
      assert s + t == t;
    } else {
      assert (s + t)[0] == s[0] && (s + t)[1..] == s[1..] + t;
      NewSideConcat(s[1..], t);
      Regroup([s[0].value], NewSide(s[1..]), NewSide(t));
    }
  }

  lemma {:induction false} CostConcat<T>(s: seq<DiffResult<T>>, t: seq<DiffResult<T>>)
    ensures Cost(s + t) == Cost(s) + Cost(t)
  {
    if s == [] {
      assert s + t == t;
    } else {
      assert (s + t)[1..] == s[1..] + t;
      CostConcat(s[1..], t);
    }
  }

  lemma Concat<T>(s: seq<DiffResult<T>>, t: seq<DiffResult<T>>)
    ensures OldSide(s + t) == OldSide(s) + OldSide(t)
    ensures NewSide(s + t) == NewSide(s) + NewSide(t)
    ensures Cost(s + t) == Cost(s) + Cost(t)
  {
    OldSideConcat(s, t);
    NewSideConcat(s, t);
    CostConcat(s, t);
  }

  lemma PrependOld<T>(e: DiffResult<T>, s: seq<DiffResult<T>>)
    ensures OldSide([e] + s) == if e.kind.Added? then OldSide(s) else [e.value] + OldSide(s)
  {
    assert ([e] + s)[1..] == s;
  }

  lemma PrependNew<T>(e: DiffResult<T>, s: seq<DiffResult<T>>)
    ensures NewSide([e] + s) == if e.kind.Removed? then NewSide(s) else [e.value] + NewSide(s)
  {
    assert ([e] + s)[1..] == s;
  }

  lemma PrependCost<T>(e: DiffResult<T>, s: seq<DiffResult<T>>)
    ensures Cost([e] + s) == (if e.kind.Common? then 0 else 1) + Cost(s)
  {
    assert ([e] + s)[1..] == s;
  }

  /** Every entry of `values`, all of one kind. */
  function Tagged<T>(kind: DiffType, values: seq<T>): (s: seq<DiffResult<T>>)
    ensures |s| == |values|
    ensures forall i :: 0 <= i < |s| ==> s[i] == DiffResult(kind, values[i])
  {
    seq(|values|, i requires 0 <= i < |values| => DiffResult(kind, values[i]))
  }

  lemma {:induction false} TaggedSides<T>(kind: DiffType, values: seq<T>)
    ensures OldSide(Tagged(kind, values)) == if kind.Added? then [] else values
    ensures NewSide(Tagged(kind, values)) == if kind.Removed? then [] else values
    ensures Cost(Tagged(kind, values)) == if kind.Common? then 0 else |values|
  {
    if values != [] {
      assert Tagged(kind, values)[1..] == Tagged(kind, values[1..]);
      TaggedSides(kind, values[1..]);
      assert values == [values[0]] + values[1..];
    }
  }

  // ----- the longest common subsequence table

  /** Length of a longest common subsequence of a[..x] and b[..y]. */
  ghost function Lcs<T>(a: seq<T>, b: seq<T>, x: nat, y: nat): nat
    requires x <= |a| && y <= |b|
  {
    if x == 0 || y == 0 then 0
    else if a[x - 1] == b[y - 1] then Lcs(a, b, x - 1, y - 1) + 1
    else Max(Lcs(a, b, x - 1, y), Lcs(a, b, x, y - 1))
  }

  /** Length of a longest common subsequence of a and b. */
  ghost function LcsLength<T>(a: seq<T>, b: seq<T>): nat {
    Lcs(a, b, |a|, |b|)
  }

  ghost function Max(m: int, n: int): int {
    if m < n then n else m
  }

  /** Growing either prefix by one element adds nothing or one. */
  lemma {:induction false} LcsStep<T>(a: seq<T>, b: seq<T>, x: nat, y: nat)
    requires x <= |a| && y <= |b|
    ensures x > 0 ==> Lcs(a, b, x - 1, y) <= Lcs(a, b, x, y) <= Lcs(a, b, x - 1, y) + 1
    ensures y > 0 ==> Lcs(a, b, x, y - 1) <= Lcs(a, b, x, y) <= Lcs(a, b, x, y - 1) + 1
    decreases x + y
  {
    if x > 0 && y > 0 {
      LcsStep(a, b, x - 1, y);
      LcsStep(a, b, x, y - 1);
    }
  }

  lemma {:induction false} LcsBound<T>(a: seq<T>, b: seq<T>, x: nat, y: nat)
    requires x <= |a| && y <= |b|
    ensures Lcs(a, b, x, y) <= x && Lcs(a, b, x, y) <= y
    decreases x + y
  {
    if x > 0 && y > 0 {
      LcsBound(a, b, x - 1, y - 1);
      LcsBound(a, b, x - 1, y);
      LcsBound(a, b, x, y - 1);
    }
  }

  lemma {:induction false} LcsSymmetric<T>(a: seq<T>, b: seq<T>, x: nat, y: nat)
    requires x <= |a| && y <= |b|
    ensures Lcs(a, b, x, y) == Lcs(b, a, y, x)
    decreases x + y
  {
    if x > 0 && y > 0 {
      LcsSymmetric(a, b, x - 1, y - 1);
      LcsSymmetric(a, b, x - 1, y);
      LcsSymmetric(a, b, x, y - 1);
    }
  }

  /** The table only looks at the two prefixes. */
  lemma {:induction false} LcsOfPrefixes<T>(a: seq<T>, b: seq<T>, a': seq<T>, b': seq<T>, x: nat, y: nat)
    requires x <= |a| && y <= |b|
    requires a <= a' && b <= b'
    ensures Lcs(a, b, x, y) == Lcs(a', b', x, y)
    decreases x + y
  {
    if x > 0 && y > 0 {
      LcsOfPrefixes(a, b, a', b', x - 1, y - 1);
      LcsOfPrefixes(a, b, a', b', x - 1, y);
      LcsOfPrefixes(a, b, a', b', x, y - 1);
    }
  }

  lemma {:induction false} LcsCommonHead<T>(c: T, a: seq<T>, b: seq<T>, x: nat, y: nat)
    requires x <= |a| && y <= |b|
    ensures Lcs([c] + a, [c] + b, x + 1, y + 1) == Lcs(a, b, x, y) + 1
    decreases x + y
  {
    assert x > 0 ==> ([c] + a)[x] == a[x - 1];
    assert y > 0 ==> ([c] + b)[y] == b[y - 1];
    if x > 0 && y > 0 { LcsCommonHead(c, a, b, x - 1, y - 1); }
    if x > 0 { LcsCommonHead(c, a, b, x - 1, y); }
    if y > 0 { LcsCommonHead(c, a, b, x, y - 1); }
  }

  lemma HeadAndRest<T>(p: seq<T>, a: seq<T>)
    requires p != []
    ensures [p[0]] + (p[1..] + a) == p + a
  {}

  /** Trimming a common prefix takes exactly its length off the table. */
  lemma {:induction false} LcsTrimPrefix<T>(p: seq<T>, a: seq<T>, b: seq<T>)
    ensures Lcs(p + a, p + b, |p| + |a|, |p| + |b|) == |p| + Lcs(a, b, |a|, |b|)
  {
    if p == [] {
      assert p + a == a && p + b == b;
    } else {
      LcsTrimPrefix(p[1..], a, b);
      LcsCommonHead(p[0], p[1..] + a, p[1..] + b, |p| - 1 + |a|, |p| - 1 + |b|);
      HeadAndRest(p, a);
      HeadAndRest(p, b);
    }
  }

  /** Trimming a common suffix takes exactly its length off the table. */
  lemma {:induction false} LcsTrimSuffix<T>(a: seq<T>, b: seq<T>, s: seq<T>)
    ensures Lcs(a + s, b + s, |a| + |s|, |b| + |s|) == Lcs(a, b, |a|, |b|) + |s|
  {
    if s == [] {
      assert a + s == a && b + s == b;
    } else {
      var n := |s| - 1;
      LcsTrimSuffix(a, b, s[..n]);
      assert a + s[..n] <= a + s && b + s[..n] <= b + s;
      LcsOfPrefixes(a + s[..n], b + s[..n], a + s, b + s, |a| + n, |b| + n);
    }
  }

  lemma LcsTrim<T>(p: seq<T>, a: seq<T>, b: seq<T>, s: seq<T>)
    ensures LcsLength(p + a + s, p + b + s) == |p| + LcsLength(a, b) + |s|
  {
    LcsTrimPrefix(p, a, b);
    LcsTrimSuffix(p + a, p + b, s);
  }

  lemma LastEntry<T>(s: seq<DiffResult<T>>)
    requires s != []
    ensures var n, last := |s| - 1, s[|s| - 1];
            && OldSide(s) == OldSide(s[..n]) + (if last.kind.Added? then [] else [last.value])
            && NewSide(s) == NewSide(s[..n]) + (if last.kind.Removed? then [] else [last.value])
            && Cost(s) == Cost(s[..n]) + if last.kind.Common? then 0 else 1
  {
    var n, last := |s| - 1, s[|s| - 1];
    assert s == s[..n] + [last];
    Concat(s[..n], [last]);
    PrependOld(last, []);
    PrependNew(last, []);
    PrependCost(last, []);
    assert [last] + [] == [last];
  }

  /**
   No edit script is cheaper than what the table allows: whatever the entries of a script
   that turns a into b, it costs at least |a| + |b| - 2 * LCS.
   */
  lemma {:induction false} ScriptCostsAtLeast<T>(s: seq<DiffResult<T>>, a: seq<T>, b: seq<T>)
    requires Transforms(s, a, b)
    ensures Cost(s) >= |a| + |b| - 2 * LcsLength(a, b)
    decreases |s|
  {
    if s != [] {
      var n := |s| - 1;
      var a', b' := OldSide(s[..n]), NewSide(s[..n]);
      LastEntry(s);
      ScriptCostsAtLeast(s[..n], a', b');
      assert a' <= a && b' <= b;
      LcsOfPrefixes(a', b', a, b, |a'|, |b'|);
      LcsStep(a, b, |a|, |b|);
    }
  }
}
