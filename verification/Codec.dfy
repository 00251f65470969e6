/**
 The fixed-width integers of Buffer: how they are written into bytes and read back, with the
 32-bit operators of JavaScript spelled out.
 */
module Codec {
  import opened Arithmetic
  import opened Bits
  import opened Sequences

  // ----- the reference: little-endian digits to the base 256

  function Pow(w: nat): (m: int)
    ensures m > 0
  {
    if w == 0 then 1 else 256 * Pow(w - 1)
  }

  function Bytes(v: int, w: nat): seq<int>
    decreases w
  {
    if w == 0 then [] else [v % 256] + Bytes(v / 256, w - 1)
  }

  function Value(b: seq<int>): int {
    if b == [] then 0 else b[0] + 256 * Value(b[1..])
  }

  /** Two's complement. */
  function Signed(u: int, w: nat): int {
    if 2 * u >= Pow(w) then u - Pow(w) else u
  }

  predicate Fits(v: int, w: nat, signed: bool) {
    if signed then -Pow(w) <= 2 * v < Pow(w) else 0 <= v < Pow(w)
  }

  predicate IsBytes(b: seq<int>) {
    forall i :: 0 <= i < |b| ==> 0 <= b[i] < 256
  }

  /** The bounds of each width. */
  lemma FitsBounds(v: int)
    ensures Fits(v, 1, false) <==> 0 <= v <= 0xff
    ensures Fits(v, 1, true) <==> -0x80 <= v <= 0x7f
    ensures Fits(v, 2, false) <==> 0 <= v <= 0xffff
    ensures Fits(v, 2, true) <==> -0x8000 <= v <= 0x7fff
    ensures Fits(v, 3, false) <==> 0 <= v <= 0xff_ffff
    ensures Fits(v, 3, true) <==> -0x80_0000 <= v <= 0x7f_ffff
    ensures Fits(v, 4, false) <==> 0 <= v <= 0xffff_ffff
    ensures Fits(v, 4, true) <==> -0x8000_0000 <= v <= 0x7fff_ffff
    ensures Fits(v, 5, false) <==> 0 <= v <= 0xff_ffff_ffff
    ensures Fits(v, 5, true) <==> -0x80_0000_0000 <= v <= 0x7f_ffff_ffff
    ensures Fits(v, 6, false) <==> 0 <= v <= 0xffff_ffff_ffff
    ensures Fits(v, 6, true) <==> -0x8000_0000_0000 <= v <= 0x7fff_ffff_ffff
    ensures Fits(v, 8, false) <==> 0 <= v <= 0xffff_ffff_ffff_ffff
    ensures Fits(v, 8, true) <==> -0x8000_0000_0000_0000 <= v <= 0x7fff_ffff_ffff_ffff
  {
    assert Pow(1) == 0x100 && Pow(2) == 0x100 * Pow(1) && Pow(3) == 0x100 * Pow(2) && Pow(4) == 0x100 * Pow(3);
    assert Pow(5) == 0x100 * Pow(4) && Pow(6) == 0x100 * Pow(5) && Pow(7) == 0x100 * Pow(6) && Pow(8) == 0x100 * Pow(7);
  }

  /** One digit at a time: (v mod 256m) is (v mod 256) and 256 times (v / 256 mod m). */
  lemma ModStep(v: int, m: int)
    requires m > 0
    ensures v % (256 * m) == v % 256 + 256 * (v / 256 % m)
    ensures v % (256 * m) / 256 == v / 256 % m && v % (256 * m) % 256 == v % 256
  {
    var q, r := v / 256, v % 256;
    var t, s := q / m, q % m;
    assert q == m * t + s;
    assert v == 256 * q + r;
    assert 256 * (m * t) == (256 * m) * t;
    ModIs(v, 256 * m, t, 256 * s + r);
    ModIs(256 * s + r, 256, s, r);
  }

  lemma {:induction false} ValueOfBytes(v: int, w: nat)
    ensures |Bytes(v, w)| == w && IsBytes(Bytes(v, w)) && Value(Bytes(v, w)) == v % Pow(w)
    decreases w
  {
    if w > 0 {
      ValueOfBytes(v / 256, w - 1);
      ModStep(v, Pow(w - 1));
      assert Bytes(v, w)[1..] == Bytes(v / 256, w - 1);
    }
  }

  /** The digits of the number that some bytes stand for are these bytes. */
  lemma {:induction false} BytesOfValue(b: seq<int>)
    requires IsBytes(b)
    ensures 0 <= Value(b) < Pow(|b|) && Bytes(Value(b), |b|) == b
  {
    if b != [] {
      BytesOfValue(b[1..]);
      ModIs(Value(b), 256, Value(b[1..]), b[0]);
    }
  }

  /** A value that fits is the number its digits stand for. */
  lemma BytesRoundTrip(v: int, w: nat, signed: bool)
    requires Fits(v, w, signed)
    ensures (if signed then Signed(Value(Bytes(v, w)), w) else Value(Bytes(v, w))) == v
  {
    ValueOfBytes(v, w);
    if v < 0 { ModIs(v, Pow(w), -1, v + Pow(w)); } else { ModIs(v, Pow(w), 0, v); }
  }

  // ----- JavaScript's operators (sections 7.1.6, 7.1.7 and 7.1.11 of ECMA-262)

  const TWO32 := 0x1_0000_0000

  function ToUint8(x: int): int { x % 256 }

  function ToUint32(x: int): int { x % TWO32 }

  function ToInt32(x: int): int {
    if ToUint32(x) >= 0x8000_0000 then ToUint32(x) - TWO32 else ToUint32(x)
  }

  /** x >>> 8 and x >> 8. */
  function Shr8(x: int): int { ToUint32(x) / 256 }
  function Sar8(x: int): int { ToInt32(x) / 256 }

  /** a | b and a & b. */
  function Or(a: int, b: int): int { ToInt32(BitOr(ToUint32(a), ToUint32(b))) }
  function And(a: int, b: int): int { ToInt32(BitAnd(ToUint32(a), ToUint32(b))) }

  // ----- reading

  predicate Width(w: int) { w in {1, 2, 3, 4, 5, 6, 8} }

  function Low(b0: int, b1: int, b2: int, b3: int): int {
    b0 + b1 * 0x100 + b2 * 0x1_0000 + b3 * 0x100_0000
  }

  /** The sign extensions: by a multiplier that fills the upper bits, or by a shift that overflows. */
  function Extend8(x: int): int { Or(x, And(x, 0x80) * 0x1ff_fffe) }
  function Extend16(x: int): int { Or(x, And(x, 0x8000) * 0x1_fffe) }
  function Extend24(x: int): int { Or(x, And(x, 0x80_0000) * 0x1fe) }
  function Shl24(x: int): int { ToInt32(x * 0x100_0000) }

  function ReadUIntLE(b: seq<int>): int
    requires Width(|b|)
  {
    match |b|
    case 1 => b[0]
    case 2 => b[0] + b[1] * 0x100
    case 3 => b[0] + b[1] * 0x100 + b[2] * 0x1_0000
    case 4 => Low(b[0], b[1], b[2], b[3])
    case 5 => Low(b[0], b[1], b[2], b[3]) + b[4] * TWO32
    case 6 => Low(b[0], b[1], b[2], b[3]) + (b[4] + b[5] * 0x100) * TWO32
    case _ => Low(b[0], b[1], b[2], b[3]) + Low(b[4], b[5], b[6], b[7]) * TWO32
  }

  function ReadUIntBE(b: seq<int>): int
    requires Width(|b|)
  {
    match |b|
    case 1 => b[0]
    case 2 => b[0] * 0x100 + b[1]
    case 3 => b[0] * 0x1_0000 + b[1] * 0x100 + b[2]
    case 4 => Low(b[3], b[2], b[1], b[0])
    case 5 => b[0] * TWO32 + Low(b[4], b[3], b[2], b[1])
    case 6 => (b[0] * 0x100 + b[1]) * TWO32 + Low(b[5], b[4], b[3], b[2])
    case _ => Low(b[3], b[2], b[1], b[0]) * TWO32 + Low(b[7], b[6], b[5], b[4])
  }

  function ReadIntLE(b: seq<int>): int
    requires Width(|b|)
  {
    match |b|
    case 1 => Extend8(b[0])
    case 2 => Extend16(b[0] + b[1] * 0x100)
    case 3 => Extend24(b[0] + b[1] * 0x100 + b[2] * 0x1_0000)
    case 4 => b[0] + b[1] * 0x100 + b[2] * 0x1_0000 + Shl24(b[3])
    case 5 => Extend8(b[4]) * TWO32 + Low(b[0], b[1], b[2], b[3])
    case 6 => Extend16(b[4] + b[5] * 0x100) * TWO32 + Low(b[0], b[1], b[2], b[3])
    case _ => (b[4] + b[5] * 0x100 + b[6] * 0x1_0000 + Shl24(b[7])) * TWO32 + Low(b[0], b[1], b[2], b[3])
  }

  function ReadIntBE(b: seq<int>): int
    requires Width(|b|)
  {
    match |b|
    case 1 => Extend8(b[0])
    case 2 => Extend16(b[0] * 0x100 + b[1])
    case 3 => Extend24(b[0] * 0x1_0000 + b[1] * 0x100 + b[2])
    case 4 => Shl24(b[0]) + b[1] * 0x1_0000 + b[2] * 0x100 + b[3]
    case 5 => Extend8(b[0]) * TWO32 + Low(b[4], b[3], b[2], b[1])
    case 6 => Extend16(b[1] + b[0] * 0x100) * TWO32 + Low(b[5], b[4], b[3], b[2])
    case _ => (Shl24(b[0]) + b[1] * 0x1_0000 + b[2] * 0x100 + b[3]) * TWO32 + Low(b[7], b[6], b[5], b[4])
  }

  lemma Small(x: nat)
    requires x < TWO32
    ensures ToUint32(x) == x && ToInt32(x) == if x >= 0x8000_0000 then x - TWO32 else x
  {}

  lemma AndTop(x: nat, k: nat, h: nat)
    requires h == Pow2(k) <= 0x4000_0000 && x < 2 * h
    ensures And(x, h) == if x >= h then h else 0
  {
    AndBit(x, k);
    Small(x);
    Small(h);
    Small(BitAnd(x, h));
  }

  lemma OrMask(x: nat, k: nat, mask: nat)
    requires x < Pow2(k) && LowZero(mask, k) && x + mask < TWO32
    ensures Or(x, mask) == ToInt32(x + mask)
  {
    Small(x);
    Small(mask);
    OrAdds(x, mask, k);
  }

  lemma {:induction false} MultipleLow(c: nat, k: nat)
    ensures LowZero(Pow2(k) * c, k)
  {
    if k > 0 {
      MultipleLow(c, k - 1);
      var b := Pow2(k - 1) * c;
      assert Pow2(k) * c == 2 * b;
    }
  }

  lemma Masks()
    ensures LowZero(0xffff_ff00, 8) && LowZero(0xffff_0000, 16) && LowZero(0xff00_0000, 24)
    ensures LowZero(0, 8) && LowZero(0, 16) && LowZero(0, 24)
  {
    PowersOfTwo();
    MultipleLow(0xff_ffff, 8);
    MultipleLow(0xffff, 16);
    MultipleLow(0xff, 24);
    MultipleLow(0, 8);
    MultipleLow(0, 16);
    MultipleLow(0, 24);
  }

  lemma Powers()
    ensures Pow(1) == 0x100 && Pow(2) == 0x1_0000 && Pow(3) == 0x100_0000 && Pow(4) == TWO32
    ensures Pow(5) == 0x100 * TWO32 && Pow(6) == 0x1_0000 * TWO32 && Pow(8) == TWO32 * TWO32
  {
    assert Pow(4) == TWO32;
    assert Pow(6) == 0x1_0000 * TWO32;
  }

  /** A number of k bits under a mask of ones above it. */
  lemma Masked(x: nat, k: nat, t: nat, ones: nat)
    requires Pow2(k) == t && x < t && LowZero(ones, k) && ones + t == TWO32 && x + ones >= 0x8000_0000
    ensures Or(x, ones) == x - t
  {
    OrMask(x, k, ones);
    Small(x + ones);
  }

  lemma Unmasked(x: nat, k: nat)
    requires x < Pow2(k) && LowZero(0, k) && x < 0x8000_0000
    ensures Or(x, 0) == x
  {
    OrMask(x, k, 0);
    Small(x);
  }

  /** The multipliers put ones above the number if its top bit is set. */
  lemma Extended8(x: nat)
    requires x < 0x100
    ensures Extend8(x) == if x >= 0x80 then x - 0x100 else x
  {
    PowersOfTwo();
    Masks();
    AndTop(x, 7, 0x80);
    if x >= 0x80 { Masked(x, 8, 0x100, 0xffff_ff00); } else { Unmasked(x, 8); }
    assert And(x, 0x80) * 0x1ff_fffe == if x >= 0x80 then 0xffff_ff00 else 0;
  }

  lemma Extended16(x: nat)
    requires x < 0x1_0000
    ensures Extend16(x) == if x >= 0x8000 then x - 0x1_0000 else x
  {
    PowersOfTwo();
    Masks();
    AndTop(x, 15, 0x8000);
    if x >= 0x8000 { Masked(x, 16, 0x1_0000, 0xffff_0000); } else { Unmasked(x, 16); }
    assert And(x, 0x8000) * 0x1_fffe == if x >= 0x8000 then 0xffff_0000 else 0;
  }

  lemma Extended24(x: nat)
    requires x < 0x100_0000
    ensures Extend24(x) == if x >= 0x80_0000 then x - 0x100_0000 else x
  {
    PowersOfTwo();
    Masks();
    AndTop(x, 23, 0x80_0000);
    if x >= 0x80_0000 { Masked(x, 24, 0x100_0000, 0xff00_0000); } else { Unmasked(x, 24); }
    assert And(x, 0x80_0000) * 0x1fe == if x >= 0x80_0000 then 0xff00_0000 else 0;
  }

  lemma Shifted(x: nat)
    requires x < 256
    ensures Shl24(x) == if x >= 128 then (x - 256) * 0x100_0000 else x * 0x100_0000
  {}

  lemma ValueFrom(b: seq<int>, i: nat)
    requires i < |b|
    ensures Value(b[i..]) == b[i] + 256 * Value(b[i + 1..])
  {
    assert b[i..][1..] == b[i + 1..];
  }

  /** Four digits, and the rest. */
  lemma ValueLow(b: seq<int>)
    requires |b| >= 4
    ensures Value(b) == Low(b[0], b[1], b[2], b[3]) + TWO32 * Value(b[4..])
  {
    assert b[0..] == b;
    ValueFrom(b, 0);
    ValueFrom(b, 1);
    ValueFrom(b, 2);
    ValueFrom(b, 3);
  }

  /** Up to four digits. */
  lemma ValueShort(b: seq<int>)
    requires 1 <= |b| <= 3
    ensures Value(b) == b[0] + (if |b| > 1 then b[1] * 0x100 else 0) + if |b| > 2 then b[2] * 0x1_0000 else 0
  {
    assert b[0..] == b;
    ValueFrom(b, 0);
    if |b| > 1 { ValueFrom(b, 1); }
    if |b| > 2 { ValueFrom(b, 2); }
  }

  lemma ReadUIntLEIs(b: seq<int>)
    requires Width(|b|)
    ensures ReadUIntLE(b) == Value(b)
  {
    if |b| <= 3 {
      ValueShort(b);
    } else {
      ValueLow(b);
      if |b| == 5 || |b| == 6 { ValueShort(b[4..]); }
      if |b| == 8 { ValueLow(b[4..]); }
    }
  }

  lemma ReadIntLEIs(b: seq<int>)
    requires Width(|b|) && IsBytes(b)
    ensures ReadIntLE(b) == Signed(ReadUIntLE(b), |b|)
  {
    Powers();
    match |b|
    case 1 => Extended8(b[0]);
    case 2 => Extended16(b[0] + b[1] * 0x100);
    case 3 => Extended24(b[0] + b[1] * 0x100 + b[2] * 0x1_0000);
    case 4 => Shifted(b[3]);
    case 5 => Extended8(b[4]);
    case 6 => Extended16(b[4] + b[5] * 0x100);
    case _ => Shifted(b[7]);
  }

  /** Big-endian reading is little-endian reading from the other end. */
  lemma ReadUIntBEIs(b: seq<int>)
    requires Width(|b|)
    ensures |Reversed(b)| == |b| && ReadUIntBE(b) == ReadUIntLE(Reversed(b))
  {
  }

  lemma ReadIntBEIs(b: seq<int>)
    requires Width(|b|) && IsBytes(b)
    ensures ReadIntBE(b) == Signed(ReadUIntBE(b), |b|)
  {
    Powers();
    match |b|
    case 1 => Extended8(b[0]);
    case 2 => Extended16(b[0] * 0x100 + b[1]);
    case 3 => Extended24(b[0] * 0x1_0000 + b[1] * 0x100 + b[2]);
    case 4 => Shifted(b[0]);
    case 5 => Extended8(b[0]);
    case 6 => Extended16(b[1] + b[0] * 0x100);
    case _ => Shifted(b[0]);
  }

  // ----- reading what was written

  function Written(v: int, w: nat, little: bool): seq<int>
    requires Width(w)
  {
    if little then WriteLE(v, w) else WriteBE(v, w)
  }

  function ReadBack(b: seq<int>, little: bool, signed: bool): int
    requires Width(|b|)
  {
    if signed then (if little then ReadIntLE(b) else ReadIntBE(b)) else if little then ReadUIntLE(b) else ReadUIntBE(b)
  }

  // ----- writing

  /** The bytes as they are stored, the lowest first. */
  function WriteLE(v: int, w: nat): seq<int>
    requires Width(w)
  {
    var v1 := Shr8(v);
    var v2 := Shr8(v1);
    var v3 := Shr8(v2);
    var high := v / TWO32;    // Math.floor(value * 2 ** -32)
    match w
    case 1 => [ToUint8(v)]
    case 2 => [ToUint8(v), ToUint8(v1)]
    case 3 => [ToUint8(v), ToUint8(v1), ToUint8(v2)]
    case 4 => [ToUint8(v), ToUint8(v1), ToUint8(v2), ToUint8(v3)]
    case 5 => [ToUint8(v), ToUint8(v1), ToUint8(v2), ToUint8(v3), ToUint8(high)]
    case 6 => [ToUint8(v), ToUint8(v1), ToUint8(v2), ToUint8(v3), ToUint8(high), ToUint8(Shr8(high))]
    case _ => WriteBig(v % TWO32) + WriteBig(high % TWO32)
  }

  /** Half of a 64-bit integer, by signed shifts. */
  function WriteBig(x: int): seq<int> {
    [ToUint8(x), ToUint8(Sar8(x)), ToUint8(Sar8(Sar8(x))), ToUint8(Sar8(Sar8(Sar8(x))))]
  }

  function WriteBE(v: int, w: nat): seq<int>
    requires Width(w)
  {
    var v1 := Shr8(v);
    var v2 := Shr8(v1);
    var v3 := Shr8(v2);
    var high := v / TWO32;
    match w
    case 1 => [ToUint8(v)]
    case 2 => [ToUint8(v1), ToUint8(v)]
    case 3 => [ToUint8(v2), ToUint8(v1), ToUint8(v)]
    case 4 => [ToUint8(v3), ToUint8(v2), ToUint8(v1), ToUint8(v)]
    case 5 => [ToUint8(high), ToUint8(v3), ToUint8(v2), ToUint8(v1), ToUint8(v)]
    case 6 => [ToUint8(Shr8(high)), ToUint8(high), ToUint8(v3), ToUint8(v2), ToUint8(v1), ToUint8(v)]
    case _ =>
      var lo, hi := WriteBig(v % TWO32), WriteBig(high % TWO32);
      [hi[3], hi[2], hi[1], hi[0], lo[3], lo[2], lo[1], lo[0]]
  }

  /** One more shift, when x is v without what is above the digits looked at. */
  lemma ShiftStep(x: int, v: int, m: int)
    requires m in {0x100, 0x1_0000, 0x100_0000} && x == v % (256 * m)
    ensures Shr8(x) == v / 256 % m && ToUint8(x) == v % 256
  {
    ModStep(v, m);
    Small(x);
  }

  lemma LowByte(v: int)
    ensures v % 256 % 256 == v % 256
  {}

  lemma ThreeShifts(v: int, v1: int, v2: int, v3: int, x1: int, x2: int, x3: int)
    requires v1 == v / 256 && v2 == v1 / 256 && v3 == v2 / 256
    requires x1 == Shr8(v) && x2 == Shr8(x1) && x3 == Shr8(x2)
    ensures ToUint8(x1) == v1 % 256 && ToUint8(x2) == v2 % 256 && ToUint8(x3) == v3 % 256
  {
    assert x1 == v1 % (256 * 0x1_0000) by { ModStep(v, 0x100_0000); }
    ShiftStep(x1, v1, 0x1_0000);
    ShiftStep(x2, v2, 0x100);
    LowByte(v3);
  }

  /** Unsigned shifts drop what is above 32 bits, and keep the digits below. */
  lemma Shifts(v: int)
    ensures ToUint8(Shr8(v)) == v / 256 % 256
    ensures ToUint8(Shr8(Shr8(v))) == v / 256 / 256 % 256
    ensures ToUint8(Shr8(Shr8(Shr8(v)))) == v / 256 / 256 / 256 % 256
  {
    ThreeShifts(v, v / 256, v / 256 / 256, v / 256 / 256 / 256, Shr8(v), Shr8(Shr8(v)), Shr8(Shr8(Shr8(v))));
  }

  lemma Down(x: int, m: int)
    ensures (x - 256 * m) / 256 == x / 256 - m && (x - 256 * m) % 256 == x % 256
  {
    ModIs(x - 256 * m, 256, x / 256 - m, x % 256);
  }

  lemma IsInt32(y: int)
    requires -0x8000_0000 <= y < 0x8000_0000
    ensures ToInt32(y) == y && Sar8(y) == y / 256
  {
    if y < 0 { ModIs(y, TWO32, -1, y + TWO32); }
  }

  /** The signed reading of 32 bits has the same digits. */
  lemma SameDigits(x: int, y: int)
    requires y == x || y == x - TWO32
    ensures y % 256 == x % 256 && y / 256 % 256 == x / 256 % 256
    ensures y / 256 / 256 % 256 == x / 256 / 256 % 256
    ensures y / 256 / 256 / 256 % 256 == x / 256 / 256 / 256 % 256
  {
    if y == x - TWO32 {
      Down(x, 0x100_0000);
      Down(x / 256, 0x1_0000);
      Down(x / 256 / 256, 0x100);
      Down(x / 256 / 256 / 256, 1);
    }
  }

  /** So do signed ones. */
  lemma BigShifts(x: int)
    requires 0 <= x < TWO32
    ensures WriteBig(x) == Bytes(x, 4)
  {
    var y := if x >= 0x8000_0000 then x - TWO32 else x;
    assert ToInt32(x) == y by { Small(x); }
    SameDigits(x, y);
    IsInt32(y / 256);
    IsInt32(y / 256 / 256);
    FourBytes(x);
  }

  lemma FourBytes(v: int)
    ensures Bytes(v, 1) == [v % 256]
    ensures Bytes(v, 2) == [v % 256, v / 256 % 256]
    ensures Bytes(v, 3) == [v % 256, v / 256 % 256, v / 256 / 256 % 256]
    ensures Bytes(v, 4) == [v % 256, v / 256 % 256, v / 256 / 256 % 256, v / 256 / 256 / 256 % 256]
  {
    assert Bytes(v / 256 / 256 / 256, 1) == [v / 256 / 256 / 256 % 256];
    assert Bytes(v / 256 / 256, 2) == [v / 256 / 256 % 256, v / 256 / 256 / 256 % 256];
  }

  lemma {:induction false} BytesSplit(v: int, w: nat, u: nat)
    ensures Bytes(v, w + u) == Bytes(v, w) + Bytes(v / Pow(w), u)
    decreases w
  {
    if w > 0 {
      BytesSplit(v / 256, w - 1, u);
      DivStep(v, Pow(w - 1));
      assert [v % 256] + (Bytes(v / 256, w - 1) + Bytes(v / 256 / Pow(w - 1), u))
          == ([v % 256] + Bytes(v / 256, w - 1)) + Bytes(v / 256 / Pow(w - 1), u);
    } else {
      assert [] + Bytes(v, u) == Bytes(v, u);
    }
  }

  lemma DivStep(v: int, m: int)
    requires m > 0
    ensures v / (256 * m) == v / 256 / m
  {
    var q, r := v / 256, v % 256;
    var t, s := q / m, q % m;
    assert q == m * t + s && v == 256 * q + r;
    assert 256 * (m * t) == (256 * m) * t;
    ModIs(v, 256 * m, t, 256 * s + r);
  }

  lemma Bytes5(v: int)
    ensures Bytes(v, 5) == Bytes(v, 4) + Bytes(v / TWO32, 1) && Bytes(v, 6) == Bytes(v, 4) + Bytes(v / TWO32, 2)
    ensures Bytes(v, 8) == Bytes(v, 4) + Bytes(v / TWO32, 4)
  {
    Powers();
    BytesSplit(v, 4, 1);
    BytesSplit(v, 4, 2);
    BytesSplit(v, 4, 4);
  }

  /** Digits do not see what is above them. */
  lemma {:induction false} BytesMod(v: int, w: nat)
    ensures Bytes(v % Pow(w), w) == Bytes(v, w)
    decreases w
  {
    if w > 0 {
      ModStep(v, Pow(w - 1));
      BytesMod(v / 256, w - 1);
    }
  }

  lemma WriteShort(v: int, w: nat)
    requires 1 <= w <= 4
    ensures WriteLE(v, w) == Bytes(v, w)
  {
    Shifts(v);
    FourBytes(v);
  }

  lemma WriteLong(v: int)
    ensures WriteLE(v, 5) == Bytes(v, 5) && WriteLE(v, 6) == Bytes(v, 6)
  {
    var high := v / TWO32;
    WriteShort(v, 4);
    Bytes5(v);
    FourBytes(high);
    Shifts(high);
    assert WriteLE(v, 5) == WriteLE(v, 4) + [high % 256];
    assert WriteLE(v, 6) == WriteLE(v, 4) + [high % 256, high / 256 % 256];
  }

  lemma WriteHalves(v: int)
    ensures WriteLE(v, 8) == Bytes(v, 8)
  {
    Bytes5(v);
    Powers();
    BytesMod(v, 4);
    BytesMod(v / TWO32, 4);
    BigShifts(v % TWO32);
    BigShifts(v / TWO32 % TWO32);
  }

  lemma WriteLEIs(v: int, w: nat)
    requires Width(w)
    ensures WriteLE(v, w) == Bytes(v, w)
  {
    if w <= 4 { WriteShort(v, w); } else if w <= 6 { WriteLong(v); } else { WriteHalves(v); }
  }

  lemma WriteBEIs(v: int, w: nat)
    requires Width(w)
    ensures WriteBE(v, w) == Reversed(WriteLE(v, w))
  {
  }

  lemma WrittenBytes(v: int, w: nat, little: bool)
    requires Width(w)
    ensures |Written(v, w, little)| == w && IsBytes(Written(v, w, little))
    ensures Written(v, w, little) == if little then Bytes(v, w) else Reversed(Bytes(v, w))
  {
    WriteLEIs(v, w);
    WriteBEIs(v, w);
    ValueOfBytes(v, w);
  }

  /** Every value that fits is read back as it was written, in every width, order and sign. */
  lemma RoundTrip(v: int, w: nat, little: bool, signed: bool)
    requires Width(w) && Fits(v, w, signed)
    ensures |Written(v, w, little)| == w && ReadBack(Written(v, w, little), little, signed) == v
  {
    var b := Written(v, w, little);
    WrittenBytes(v, w, little);
    BytesRoundTrip(v, w, signed);
    if little {
      ReadUIntLEIs(b);
      ReadIntLEIs(b);
    } else {
      ReversedTwice(Bytes(v, w));
      ReadUIntBEIs(b);
      ReadUIntLEIs(Reversed(b));
      ReadIntBEIs(b);
    }
  }

  datatype Result<+T> = Ok(value: T) | RangeError

  /** The write functions: everything is checked before anything is stored. */
  method WriteInt(buf: array<int>, v: int, offset: int, w: nat, little: bool, signed: bool) returns (r: Result<int>)
    requires Width(w)
    modifies buf
    ensures r.Ok? <==> Fits(v, w, signed) && 0 <= offset && offset + w <= buf.Length
    ensures r.Ok? ==> r.value == offset + w && buf[offset..offset + w] == Written(v, w, little)
    ensures r.Ok? ==> ReadBack(buf[offset..offset + w], little, signed) == v
    ensures forall i :: 0 <= i < buf.Length && !(r.Ok? && offset <= i < offset + w) ==> buf[i] == old(buf[i])
  {
    if !Fits(v, w, signed) || offset < 0 || offset + w > buf.Length { return RangeError; }
    RoundTrip(v, w, little, signed);
    Store(buf, offset, Written(v, w, little));
    r := Ok(offset + w);
  }

  method Store(buf: array<int>, offset: nat, bytes: seq<int>)
    requires offset + |bytes| <= buf.Length
    modifies buf
    ensures buf[offset..offset + |bytes|] == bytes
    ensures forall i :: 0 <= i < buf.Length && !(offset <= i < offset + |bytes|) ==> buf[i] == old(buf[i])
  {
    var k := 0;
    while k < |bytes|
      invariant 0 <= k <= |bytes|
      invariant buf[offset..offset + k] == bytes[..k]
      invariant forall i :: 0 <= i < buf.Length && !(offset <= i < offset + k) ==> buf[i] == old(buf[i])
    {
      buf[offset + k] := bytes[k];
      k := k + 1;
    }
  }

  /** Where the read functions read: those for 64 bits take the offset modulo 2 ^ 32 (offset >>> 0). */
  function ReadAt(offset: int, w: nat): int {
    if w == 8 then ToUint32(offset) else offset
  }

  /** The read functions: a range error unless all bytes are there. */
  method ReadInt(buf: array<int>, offset: int, w: nat, little: bool, signed: bool) returns (r: Result<int>)
    requires Width(w)
    ensures r.Ok? <==> 0 <= ReadAt(offset, w) && ReadAt(offset, w) + w <= buf.Length
    ensures r.Ok? ==> r.value == ReadBack(buf[ReadAt(offset, w)..ReadAt(offset, w) + w], little, signed)
  {
    var at := offset;
    if w == 8 { at := ToUint32(offset); }
    if at < 0 || at + w > buf.Length { return RangeError; }
    var b := buf[at..at + w];
    r := Ok(ReadBack(b, little, signed));
  }

  /** What is written is read at the same offset, by buffers of any size that JavaScript has. */
  method WriteThenRead(buf: array<int>, v: int, offset: int, w: nat, little: bool, signed: bool) returns (r: Result<int>)
    requires Width(w) && buf.Length <= TWO32
    modifies buf
    ensures Fits(v, w, signed) && 0 <= offset && offset + w <= buf.Length ==> r == Ok(v)
  {
    var written := WriteInt(buf, v, offset, w, little, signed);
    if 0 <= offset < TWO32 { Small(offset); }
    r := ReadInt(buf, offset, w, little, signed);
  }

  /** Where a width of less than 64 bits is read; and where 64 bits are, at offsets that are 32-bit numbers. */
  lemma ReadsInPlace(offset: int, w: nat)
    ensures w != 8 || 0 <= offset < 0x1_0000_0000 ==> ReadAt(offset, w) == offset
  {
    if 0 <= offset < TWO32 { Small(offset); }
  }

  /** An offset is accepted though the bytes behind it are not there exactly if it is no 32-bit number and wraps to a place where they are. */
  lemma WrappedOffset(offset: int, w: nat, length: nat)
    requires Width(w) && length <= TWO32
    ensures (0 <= ReadAt(offset, w) && ReadAt(offset, w) + w <= length && !(0 <= offset && offset + w <= length)) <==>
            w == 8 && !(0 <= offset < TWO32) && ToUint32(offset) + 8 <= length
  {
    if 0 <= offset < TWO32 { Small(offset); }
  }

  /** Behind the end, and before the start, of a buffer of eight bytes. */
  method ReadsBeyondTheEnd(buf: array<int>) returns (behind: Result<int>, before: Result<int>)
    requires buf.Length == 8
    ensures behind == before == Ok(ReadBack(buf[0..8], true, false))
  {
    behind := ReadInt(buf, TWO32, 8, true, false);
    before := ReadInt(buf, -TWO32, 8, true, false);
  }
}
