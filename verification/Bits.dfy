/** Natural numbers as bit patterns. */
module Bits {
  function BitOr(a: nat, b: nat): nat
    decreases a + b
  {
    if a == 0 && b == 0 then 0
    else 2 * BitOr(a / 2, b / 2) + if a % 2 == 1 || b % 2 == 1 then 1 else 0
  }

  function BitAnd(a: nat, b: nat): nat
    decreases a + b
  {
    if a == 0 && b == 0 then 0
    else 2 * BitAnd(a / 2, b / 2) + if a % 2 == 1 && b % 2 == 1 then 1 else 0
  }

  function Pow2(k: nat): nat {
    if k == 0 then 1 else 2 * Pow2(k - 1)
  }

  lemma PowersOfTwo()
    ensures Pow2(7) == 0x80 && Pow2(8) == 0x100 && Pow2(15) == 0x8000 && Pow2(16) == 0x1_0000
    ensures Pow2(23) == 0x80_0000 && Pow2(24) == 0x100_0000 && Pow2(32) == 0x1_0000_0000
  {}

  lemma {:induction false} OrZero(b: nat)
    ensures BitOr(0, b) == b
  {
    if b > 0 { OrZero(b / 2); }
  }

  /** The lowest k bits are zero. */
  predicate LowZero(b: nat, k: nat)
    decreases k
  {
    k == 0 || (b % 2 == 0 && LowZero(b / 2, k - 1))
  }

  /** Numbers without a common bit are added. */
  lemma {:induction false} OrAdds(a: nat, b: nat, k: nat)
    requires a < Pow2(k) && LowZero(b, k)
    ensures BitOr(a, b) == a + b
    decreases k
  {
    if k == 0 { OrZero(b); } else { OrAdds(a / 2, b / 2, k - 1); }
  }

  lemma {:induction false} AndZero(a: nat)
    ensures BitAnd(a, 0) == 0
  {
    if a > 0 { AndZero(a / 2); }
  }

  /** The top bit of a number of k + 1 bits. */
  lemma {:induction false} AndBit(a: nat, k: nat)
    requires a < 2 * Pow2(k)
    ensures BitAnd(a, Pow2(k)) == if a >= Pow2(k) then Pow2(k) else 0
    decreases k
  {
    if k == 0 {
      AndZero(a / 2);
    } else {
      AndBit(a / 2, k - 1);
    }
  }

  // ----- copying the highest bit into all lower ones

  /** x >>> k. */
  function Shift(x: nat, k: nat): nat {
    if k == 0 then x else Shift(x / 2, k - 1)
  }

  lemma {:induction false} ShiftTwice(x: nat, j: nat, k: nat)
    ensures Shift(x, j + k) == Shift(Shift(x, j), k)
    decreases j
  {
    if j > 0 { ShiftTwice(x / 2, j - 1, k); }
  }

  lemma {:induction false} ShiftHalf(x: nat, k: nat)
    ensures Shift(x, k) / 2 == Shift(x / 2, k)
    decreases k
  {
    if k > 0 { ShiftHalf(x / 2, k - 1); }
  }

  lemma {:induction false} LowZeroTwice(x: nat, j: nat, k: nat)
    ensures LowZero(x, j + k) <==> LowZero(x, j) && LowZero(Shift(x, j), k)
    decreases j
  {
    if j > 0 { LowZeroTwice(x / 2, j - 1, k); }
  }

  lemma {:induction false} LowZeroSmall(x: nat, k: nat)
    requires x < Pow2(k) && LowZero(x, k)
    ensures x == 0
    decreases k
  {
    if k > 0 { LowZeroSmall(x / 2, k - 1); }
  }

  /** Every bit that has a one less than w places above it, itself included. */
  function Spread(x: nat, w: nat): nat {
    if x == 0 then 0 else 2 * Spread(x / 2, w) + if LowZero(x, w) then 0 else 1
  }

  lemma {:induction false} SpreadOne(x: nat)
    ensures Spread(x, 1) == x
  {
    if x > 0 { SpreadOne(x / 2); }
  }

  /** Spreading and shifting may change places. */
  lemma {:induction false} SpreadShift(x: nat, w: nat, k: nat)
    ensures Shift(Spread(x, w), k) == Spread(Shift(x, k), w)
    decreases k
  {
    if k > 0 {
      SpreadShift(x / 2, w, k - 1);
      assert Spread(x, w) / 2 == Spread(x / 2, w);
    }
  }

  lemma {:induction false} ZeroIsLow(k: nat)
    ensures LowZero(0, k)
  {
    if k > 0 { ZeroIsLow(k - 1); }
  }

  lemma SpreadBits(x: nat, w: nat)
    ensures Spread(x, w) / 2 == Spread(x / 2, w) && Spread(x, w) % 2 == if LowZero(x, w) then 0 else 1
  {
    if x == 0 { ZeroIsLow(w); }
  }

  /** Or-ing a spread number with itself shifted spreads it twice as far. */
  lemma {:induction false} SpreadOr(x: nat, w: nat)
    ensures BitOr(Spread(x, w), Spread(Shift(x, w), w)) == Spread(x, w + w)
  {
    if x > 0 {
      SpreadOr(x / 2, w);
      ShiftHalf(x, w);
      LowZeroTwice(x, w, w);
      SpreadBits(x, w);
      SpreadBits(Shift(x, w), w);
    } else {
      ZeroShift(w);
    }
  }

  lemma {:induction false} ZeroShift(k: nat)
    ensures Shift(0, k) == 0
  {
    if k > 0 { ZeroShift(k - 1); }
  }

  lemma SpreadTwice(x: nat, w: nat)
    ensures BitOr(Spread(x, w), Shift(Spread(x, w), w)) == Spread(x, w + w)
  {
    SpreadShift(x, w, w);
    SpreadOr(x, w);
  }

  /** All ones up to the highest bit of x. */
  function Ones(x: nat): nat {
    if x == 0 then 0 else 2 * Ones(x / 2) + 1
  }

  lemma {:induction false} SpreadAll(x: nat, w: nat)
    requires x < Pow2(w)
    ensures Spread(x, w) == Ones(x)
  {
    if x > 0 {
      if LowZero(x, w) { LowZeroSmall(x, w); }
      SpreadAll(x / 2, w);
    }
  }
}
