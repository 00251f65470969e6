/** `diff`: trim what both ends share, search the rest with the longer side first, put the ends back. */
module Diff {
  import opened Sequences
  import opened EditScript
  import opened DiffFrontier
  import opened DiffSearch

  ghost predicate LongestPrefix<T>(a: seq<T>, b: seq<T>, c: seq<T>) {
    var n := |c|;
    c <= a && c <= b && (n < |a| && n < |b| ==> a[n] != b[n])
  }

  ghost predicate LongestSuffix<T>(a: seq<T>, b: seq<T>, c: seq<T>) {
    var n := |c|;
    && n <= |a| && n <= |b| && a[|a| - n..] == c && b[|b| - n..] == c
    && (n < |a| && n < |b| ==> a[|a| - n - 1] != b[|b| - n - 1])
  }

  /** The i-th entry from the start, or from the end. */
  function Place(length: nat, i: nat, reverse: bool): (place: nat)
    requires i < length
    ensures place < length
  {
    if reverse then length - i - 1 else i
  }

  /** `common` is what `a` starts with, read from the start or from the end. */
  ghost predicate StartsWith<T>(a: seq<T>, common: seq<T>, reverse: bool) {
    |common| <= |a| && forall j :: 0 <= j < |common| ==> common[j] == a[Place(|a|, j, reverse)]
  }

  lemma OneMore<T>(a: seq<T>, common: seq<T>, reverse: bool)
    requires StartsWith(a, common, reverse) && |common| < |a|
    ensures StartsWith(a, common + [a[Place(|a|, |common|, reverse)]], reverse)
  {}

  ghost predicate LongestStart<T>(a: seq<T>, b: seq<T>, common: seq<T>, reverse: bool) {
    var n := |common|;
    && StartsWith(a, common, reverse) && StartsWith(b, common, reverse)
    && (n < |a| && n < |b| ==> a[Place(|a|, n, reverse)] != b[Place(|b|, n, reverse)])
  }

  method CreateCommon<T(==)>(a: seq<T>, b: seq<T>, reverse: bool) returns (common: seq<T>)
    ensures LongestStart(a, b, common, reverse)
  {
    common := [];
    if |a| == 0 || |b| == 0 { return; }
    var i := 0;
    while i < |a| && i < |b|
      invariant 0 <= i == |common| <= |a| && i <= |b|
      invariant StartsWith(a, common, reverse) && StartsWith(b, common, reverse)
    {
      if a[Place(|a|, i, reverse)] == b[Place(|b|, i, reverse)] {
        OneMore(a, common, reverse);
        OneMore(b, common, reverse);
        common := common + [a[Place(|a|, i, reverse)]];
      } else {
        break;
      }
      i := i + 1;
    }
  }

  /** What `createCommon` finds: the longest common prefix, or the longest common suffix read from its end. */
  lemma LongestEnds<T>(a: seq<T>, b: seq<T>, common: seq<T>, reverse: bool)
    requires LongestStart(a, b, common, reverse)
    ensures if reverse then LongestSuffix(a, b, Reversed(common)) else LongestPrefix(a, b, common)
  {
    if reverse {
      ReversedSuffix(common, a);
      ReversedSuffix(common, b);
    }
  }

  lemma ReversedSuffix<T>(common: seq<T>, a: seq<T>)
    requires StartsWith(a, common, true)
    ensures Reversed(common) == a[|a| - |common|..]
  {
    var n := |common|;
    forall i | 0 <= i < n ensures Reversed(common)[i] == a[|a| - n..][i] {
      assert common[n - 1 - i] == a[Place(|a|, n - 1 - i, true)];
    }
  }

  /** `s` turns a into b at the least cost the table allows. */
  ghost predicate Cheapest<T>(s: seq<DiffResult<T>>, a: seq<T>, b: seq<T>) {
    Transforms(s, a, b) && Cost(s) == |a| + |b| - 2 * LcsLength(a, b)
  }

  function Framed<T>(prefix: seq<T>, middle: seq<DiffResult<T>>, suffix: seq<T>): seq<DiffResult<T>> {
    Tagged(Common, prefix) + middle + Tagged(Common, suffix)
  }

  /** What both sequences have in common at their ends, the start first, is left alone. */
  ghost predicate KeepsEnds<T(!new)>(s: seq<DiffResult<T>>, a: seq<T>, b: seq<T>) {
    exists prefix, middle, suffix ::
      && LongestPrefix(a, b, prefix) && LongestSuffix(a[|prefix|..], b[|prefix|..], suffix)
      && s == Framed(prefix, middle, suffix)
  }

  lemma FramedOrder<T>(prefix: seq<T>, middle: seq<DiffResult<T>>, suffix: seq<T>, first: DiffType, second: DiffType)
    requires NeverBefore(middle, first, second) && !first.Common? && !second.Common?
    ensures NeverBefore(Framed(prefix, middle, suffix), first, second)
  {
    var s, n, m := Framed(prefix, middle, suffix), |prefix|, |prefix| + |middle|;
    forall i | 0 < i < |s| && s[i].kind == second ensures s[i - 1].kind != first {
      assert n <= i < m && s[i] == middle[i - n];
      if i > n { assert s[i - 1] == middle[i - n - 1]; }
    }
  }

  /** Putting the common ends back loses nothing. */
  lemma FramedCheapest<T>(prefix: seq<T>, middle: seq<DiffResult<T>>, suffix: seq<T>, a: seq<T>, b: seq<T>)
    requires Cheapest(middle, a, b)
    ensures Cheapest(Framed(prefix, middle, suffix), prefix + a + suffix, prefix + b + suffix)
  {
    var p, s := Tagged(Common, prefix), Tagged(Common, suffix);
    TaggedSides(Common, prefix);
    TaggedSides(Common, suffix);
    Concat(p, middle);
    Concat(p + middle, s);
    LcsTrim(prefix, a, b, suffix);
  }

  lemma OneSided<T>(kind: DiffType, a: seq<T>)
    ensures kind.Removed? ==> Cheapest(Tagged(kind, a), a, [])
    ensures kind.Added? ==> Cheapest(Tagged(kind, a), [], a)
  {
    TaggedSides(kind, a);
  }

  /** Meeting the table's bound is being cheapest among all scripts. */
  lemma CheapestIsMinimal<T(!new)>(r: seq<DiffResult<T>>, a: seq<T>, b: seq<T>)
    requires Cheapest(r, a, b)
    ensures forall s :: Transforms(s, a, b) ==> Cost(r) <= Cost(s)
  {
    forall s | Transforms(s, a, b) ensures Cost(r) <= Cost(s) {
      ScriptCostsAtLeast(s, a, b);
    }
  }

  /** What both sequences start and end with, and what is left of each in between. */
  method Trim<T(==)>(actual: seq<T>, expected: seq<T>) returns (prefix: seq<T>, a: seq<T>, b: seq<T>, suffix: seq<T>)
    ensures actual == prefix + a + suffix && expected == prefix + b + suffix
    ensures LongestPrefix(actual, expected, prefix)
    ensures LongestSuffix(actual[|prefix|..], expected[|prefix|..], suffix)
  {
    prefix := CreateCommon(actual, expected, false);
    LongestEnds(actual, expected, prefix, false);
    var tailA, tailB := actual[|prefix|..], expected[|prefix|..];
    var back := CreateCommon(tailA, tailB, true);
    suffix := Reversed(back);
    LongestEnds(tailA, tailB, back, true);
    a := tailA[..|tailA| - |suffix|];
    b := tailB[..|tailB| - |suffix|];
    assert actual == prefix + a + suffix by { Trimmed(actual, prefix, tailA, a, suffix); }
    assert expected == prefix + b + suffix by { Trimmed(expected, prefix, tailB, b, suffix); }
  }

  lemma Trimmed<T>(whole: seq<T>, prefix: seq<T>, tail: seq<T>, middle: seq<T>, suffix: seq<T>)
    requires prefix <= whole && tail == whole[|prefix|..]
    requires |suffix| <= |tail| && tail[|tail| - |suffix|..] == suffix && middle == tail[..|tail| - |suffix|]
    ensures whole == prefix + middle + suffix
  {
    assert tail == middle + suffix;
    assert whole == prefix + tail;
    Regroup(prefix, middle, suffix);
  }

  /** The differences of two trimmed sequences, the longer one first. */
  method Middle<T(==)>(a: seq<T>, b: seq<T>, swapped: bool) returns (middle: seq<DiffResult<T>>)
    requires |b| <= |a|
    ensures if swapped then Cheapest(middle, b, a) else Cheapest(middle, a, b)
    ensures NeverBefore(middle, DownKind(swapped), SlideKind(swapped))
  {
    LcsSymmetric(a, b, |a|, |b|);
    if |b| == 0 {
      OneSided(if swapped then Added else Removed, a);
      middle := Tagged(if swapped then Added else Removed, a);
    } else {
      var differ := new Differ(a, b);
      var current := differ.Search();
      middle := differ.BackTrace(current, swapped);
    }
  }

  /**
   The result turns `actual` into `expected`, and no other script does so with fewer entries
   added and removed. Of the cheapest scripts it is one that keeps the common ends, and in
   which no addition is directly followed by a removal; or, if `expected` is longer, no removal
   by an addition.
   */
  method Diff<T(==, !new)>(actual: seq<T>, expected: seq<T>) returns (result: seq<DiffResult<T>>)
    ensures Transforms(result, actual, expected)
    ensures Cost(result) == |actual| + |expected| - 2 * LcsLength(actual, expected)
    ensures forall s :: Transforms(s, actual, expected) ==> Cost(result) <= Cost(s)
    ensures |expected| <= |actual| ==> NeverBefore(result, Added, Removed)
    ensures |expected| > |actual| ==> NeverBefore(result, Removed, Added)
    ensures KeepsEnds(result, actual, expected)
  {
    var prefixCommon, a, b, suffixCommon := Trim(actual, expected);
    if |a| == 0 && |b| == 0 && |suffixCommon| == 0 && |prefixCommon| == 0 {
      result := [];
      CheapestIsMinimal(result, actual, expected);
      assert result == Framed(prefixCommon, [], suffixCommon);
      return;
    }
    var swapped := |b| > |a|;
    var middle;
    if swapped { middle := Middle(b, a, swapped); } else { middle := Middle(a, b, swapped); }
    result := Framed(prefixCommon, middle, suffixCommon);
    FramedCheapest(prefixCommon, middle, suffixCommon, a, b);
    FramedOrder(prefixCommon, middle, suffixCommon, DownKind(swapped), SlideKind(swapped));
    CheapestIsMinimal(result, actual, expected);
  }
}
