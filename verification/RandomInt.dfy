/**
 `randomInt`: rejection sampling from six cached random bytes at a time. The bytes come from
 outside, as the fills of the cache.
 */
module RandomInt {
  import opened Options
  import opened Arithmetic
  import opened Codec
  import opened Sequences

  const RAND_MAX := 0xffff_ffff_ffff
  const CACHE := 6 * 1024

  /** The draws below this limit are accepted: the largest multiple of `range` up to RAND_MAX. */
  function Limit(range: int): int
    requires range > 0
  {
    RAND_MAX - RAND_MAX % range
  }

  lemma LimitIsMultiple(range: int)
    requires 0 < range <= RAND_MAX
    ensures Limit(range) == range * (RAND_MAX / range) && 0 < RAND_MAX / range
    ensures RAND_MAX - range < Limit(range) <= RAND_MAX
  {
    ModIs(RAND_MAX, range, RAND_MAX / range, RAND_MAX % range);
    if RAND_MAX / range <= 0 { Multiple(range, RAND_MAX / range); }
  }

  // ----- no bias

  /** The draws that are accepted and give the residue r, one for each quotient. */
  function Preimages(range: int, quotients: nat, r: int): set<int> {
    if quotients == 0 then {} else Preimages(range, quotients - 1, r) + {range * (quotients - 1) + r}
  }

  /** In the interval of the last quotient, one number has the residue r. */
  lemma LastInterval(range: int, q: nat, r: int, x: int)
    requires 0 <= r < range && range * q <= x < range * q + range
    ensures x % range == r <==> x == range * q + r
  {
    ModIs(x, range, q, x - range * q);
  }

  lemma NotNegative(m: int, q: nat)
    requires m > 0
    ensures m * q >= 0
  {
    if q > 0 { Multiple(m, q); }
  }

  lemma {:induction false} PreimageIs(range: int, quotients: nat, r: int, x: int)
    requires 0 <= r < range
    ensures x in Preimages(range, quotients, r) <==> 0 <= x < range * quotients && x % range == r
  {
    if quotients > 0 {
      var q := quotients - 1;
      PreimageIs(range, q, r, x);
      assert range * quotients == range * q + range;
      NotNegative(range, q);
      if range * q <= x < range * q + range { LastInterval(range, q, r, x); }
      ModIs(range * q + r, range, q, r);
    }
  }

  lemma {:induction false} PreimageCount(range: int, quotients: nat, r: int)
    requires 0 <= r < range
    ensures |Preimages(range, quotients, r)| == quotients
  {
    if quotients > 0 {
      var last := range * (quotients - 1) + r;
      PreimageCount(range, quotients - 1, r);
      PreimageIs(range, quotients - 1, r, last);
    }
  }

  /** Every result has equally many draws that lead to it. */
  lemma NoBias(range: int, r: int)
    requires 0 < range <= RAND_MAX && 0 <= r < range
    ensures |Preimages(range, RAND_MAX / range, r)| == Limit(range) / range
    ensures forall x :: x in Preimages(range, RAND_MAX / range, r) <==> 0 <= x < Limit(range) && x % range == r
  {
    LimitIsMultiple(range);
    PreimageCount(range, RAND_MAX / range, r);
    ModIs(Limit(range), range, RAND_MAX / range, 0);
    forall x ensures x in Preimages(range, RAND_MAX / range, r) <==> 0 <= x < Limit(range) && x % range == r {
      PreimageIs(range, RAND_MAX / range, r, x);
    }
  }

  // ----- the draws

  /** Six bytes, and what they stand for: every number up to RAND_MAX, and each exactly once. */
  lemma DrawsAreNumbers(b: seq<int>, c: seq<int>, x: int)
    requires |b| == |c| == 6 && IsBytes(b) && IsBytes(c)
    ensures 0 <= ReadUIntBE(b) <= RAND_MAX
    ensures ReadUIntBE(b) == ReadUIntBE(c) ==> b == c
    ensures 0 <= x <= RAND_MAX ==> exists d :: |d| == 6 && IsBytes(d) && ReadUIntBE(d) == x
  {
    DrawIsValue(b);
    DrawIsValue(c);
    SixBytes();
    BytesOfValue(Reversed(b));
    BytesOfValue(Reversed(c));
    ReversedTwice(b);
    ReversedTwice(c);
    if 0 <= x <= RAND_MAX {
      ValueOfBytes(x, 6);
      BytesRoundTrip(x, 6, false);
      var d := Reversed(Bytes(x, 6));
      ReversedTwice(Bytes(x, 6));
      DrawIsValue(d);
      assert |d| == 6 && IsBytes(d) && ReadUIntBE(d) == x;
    }
  }

  lemma DrawIsValue(b: seq<int>)
    requires |b| == 6 && IsBytes(b)
    ensures IsBytes(Reversed(b)) && ReadUIntBE(b) == Value(Reversed(b))
  {
    ReadUIntBEIs(b);
    ReadUIntLEIs(Reversed(b));
  }

  lemma SixBytes()
    ensures Pow(6) == RAND_MAX + 1
  {
    assert Pow(1) == 256 && Pow(2) == 256 * Pow(1) && Pow(3) == 256 * Pow(2);
    assert Pow(4) == 256 * Pow(3) && Pow(5) == 256 * Pow(4) && Pow(6) == 256 * Pow(5);
  }

  /** The draws that some bytes give: one for every six of them. */
  ghost predicate Drawing(draws: seq<int>, bytes: seq<int>) {
    && 6 * |draws| <= |bytes|
    && forall k :: 0 <= k < |draws| ==> draws[k] == ReadUIntBE(bytes[6 * k..6 * k + 6])
  }

  function Together(fills: seq<seq<int>>): seq<int> {
    if fills == [] then [] else fills[0] + Together(fills[1..])
  }

  /** After these draws, what is ahead in the cache and the unused fills are the bytes that are left. */
  ghost predicate Feeds(draws: seq<int>, bytes: seq<int>, ahead: seq<int>, later: seq<seq<int>>) {
    Drawing(draws, bytes) && ahead + Together(later) == bytes[6 * |draws|..]
  }

  lemma FeedsOne(draws: seq<int>, bytes: seq<int>, ahead: seq<int>, later: seq<seq<int>>, x: int)
    requires Feeds(draws, bytes, ahead, later) && |ahead| >= 6 && x == ReadUIntBE(ahead[..6])
    ensures Feeds(draws + [x], bytes, ahead[6..], later) && Drawing(draws + [x], bytes)
  {
    var n, rest := |draws|, Together(later);
    assert (ahead + rest)[..6] == ahead[..6] && (ahead + rest)[6..] == ahead[6..] + rest;
    assert bytes[6 * n..][..6] == bytes[6 * n..6 * n + 6];
    assert bytes[6 * n..][6..] == bytes[6 * (n + 1)..];
  }

  lemma FeedsFill(draws: seq<int>, bytes: seq<int>, fills: seq<seq<int>>, used: nat)
    requires used <= |fills| && Feeds(draws, bytes, [], fills[used..])
    ensures used < |fills| ==> Feeds(draws, bytes, fills[used], fills[used + 1..])
    ensures used == |fills| ==> 6 * |draws| == |bytes|
  {
    if used < |fills| { assert fills[used..][1..] == fills[used + 1..]; }
  }

  // ----- the cache

  predicate AreFills(fills: seq<seq<int>>) {
    forall k :: 0 <= k < |fills| ==> |fills[k]| == CACHE && IsBytes(fills[k])
  }

  /** The result of a call; `NoMoreBytes` stands for going on with fills that are not given. */
  datatype Outcome = OutOfRange | NoMoreBytes | Drawn(n: int)

  class Sampler {
    var randomCache: seq<int>
    var randomCacheOffset: nat
    var initialized: bool

    /** Each read of six bytes is inside the cache. */
    predicate Valid()
      reads this
    {
      && |randomCache| == CACHE && IsBytes(randomCache)
      && randomCacheOffset <= CACHE && randomCacheOffset % 6 == 0
      && (!initialized ==> randomCacheOffset == 0)
    }

    /** The random bytes that are not drawn yet. */
    ghost function Ahead(): seq<int>
      requires randomCacheOffset <= |randomCache|
      reads this
    {
      if initialized then randomCache[randomCacheOffset..] else []
    }

    constructor ()
      ensures Valid() && !initialized
    {
      randomCache, randomCacheOffset, initialized := seq(CACHE, _ => 0), 0, false;
    }

    /** Six bytes, big-endian: one draw. */
    method Draw() returns (x: int)
      requires Valid() && initialized && randomCacheOffset < CACHE
      modifies this`randomCacheOffset
      ensures Valid() && randomCacheOffset == old(randomCacheOffset) + 6 && Ahead() == old(Ahead())[6..]
      ensures x == ReadUIntBE(old(Ahead())[..6]) && 0 <= x <= RAND_MAX
    {
      var b := randomCache[randomCacheOffset..randomCacheOffset + 6];
      x := ReadUIntBE(b);
      randomCacheOffset := randomCacheOffset + 6;
    }

    /** The first fill, and a new one when the cache is used up. */
    method Fill(fills: seq<seq<int>>, used: nat, ghost draws: seq<int>, ghost bytes: seq<int>)
      returns (ok: bool, used': nat)
      requires Valid() && AreFills(fills) && used <= |fills| && Feeds(draws, bytes, Ahead(), fills[used..])
      modifies this
      ensures Valid() && used <= used' && (used' == used ==> randomCacheOffset == old(randomCacheOffset))
      ensures ok ==> initialized && randomCacheOffset < CACHE && used' <= |fills| && Feeds(draws, bytes, Ahead(), fills[used'..])
      ensures !ok ==> 6 * |draws| == |bytes| && Drawing(draws, bytes)
    {
      ok, used' := true, used;
      if !initialized || randomCacheOffset == CACHE {
        assert Ahead() == [];
        FeedsFill(draws, bytes, fills, used);
        if used == |fills| { return false, used; }
        randomCache, randomCacheOffset, initialized, used' := fills[used], 0, true, used + 1;
        assert Ahead() == fills[used];
      }
    }

    /**
     The first accepted draw, reduced to the range; all draws before it were beyond the limit.
     The draws are what the bytes left over and those of the fills give, one after the other.
     With min equal to max the limit is NaN, and no draw is ever accepted.
     */
    method GetRandomInt(min: int, max: int, fills: seq<seq<int>>) returns (r: Outcome, ghost draws: seq<int>)
      requires Valid() && min <= max && AreFills(fills)
      modifies this
      ensures Valid()
      ensures r == OutOfRange <==> max - min > RAND_MAX
      ensures r.Drawn? ==> min <= r.n < max && Accepted(draws, max - min, r.n - min)
      ensures r == NoMoreBytes && min < max ==> forall k :: 0 <= k < |draws| ==> draws[k] >= Limit(max - min)
      ensures min == max ==> r == NoMoreBytes
      ensures Drawing(draws, old(Ahead()) + Together(fills))
      ensures r == NoMoreBytes ==> 6 * |draws| == |old(Ahead()) + Together(fills)|
    {
      hide Together, Accepted, Limit, ReadUIntBE, IsBytes, AreFills;
      draws := [];
      var used := 0;
      ghost var bytes := Ahead() + Together(fills);
      assert fills[0..] == fills;
      if !initialized {
        var ok;
        ok, used := Fill(fills, 0, draws, bytes);
        if !ok { return if max - min > RAND_MAX then OutOfRange else NoMoreBytes, draws; }
      }
      var range := max - min;
      if range > RAND_MAX { return OutOfRange, draws; }
      r, draws := Sample(range, min, fills, used, bytes);
    }

    /** The loop of the rejection sampling. */
    method Sample(range: int, min: int, fills: seq<seq<int>>, start: nat, ghost bytes: seq<int>)
      returns (r: Outcome, ghost draws: seq<int>)
      requires Valid() && 0 <= range <= RAND_MAX && AreFills(fills) && start <= |fills|
      requires initialized && Feeds([], bytes, Ahead(), fills[start..])
      modifies this
      ensures Valid() && !r.OutOfRange? && Drawing(draws, bytes)
      ensures r.Drawn? ==> range > 0 && min <= r.n < min + range && Accepted(draws, range, r.n - min)
      ensures r == NoMoreBytes ==> 6 * |draws| == |bytes|
      ensures r == NoMoreBytes && range > 0 ==> forall k :: 0 <= k < |draws| ==> draws[k] >= Limit(range)
    {
      hide Together, ReadUIntBE, AreFills, Feeds, Drawing;
      draws := [];
      var used := start;
      var randLimit := if range == 0 then None else Some(RAND_MAX - RAND_MAX % range);
      while true
        invariant Valid() && used <= |fills| && initialized && Feeds(draws, bytes, Ahead(), fills[used..])
        invariant randLimit.Some? ==> forall k :: 0 <= k < |draws| ==> draws[k] >= randLimit.value
        decreases |fills| - used, CACHE - randomCacheOffset
      {
        var ok;
        ok, used := Fill(fills, used, draws, bytes);
        if !ok { return NoMoreBytes, draws; }
        ghost var ahead := Ahead();
        var x := Draw();
        FeedsOne(draws, bytes, ahead, fills[used..], x);
        draws := draws + [x];
        if randLimit.Some? && x < randLimit.value { return Drawn(x % range + min), draws; }
      }
    }
  }

  /** The last draw is the first below the limit, and has the residue n. */
  predicate Accepted(draws: seq<int>, range: int, n: int)
    requires range > 0
  {
    && draws != [] && 0 <= draws[|draws| - 1] < Limit(range) && draws[|draws| - 1] % range == n
    && forall k :: 0 <= k < |draws| - 1 ==> draws[k] >= Limit(range)
  }
}
