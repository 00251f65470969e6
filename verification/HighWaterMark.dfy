/** How read(n) raises the high-water mark: to the next power of two, by copying bits down. */
module HighWaterMark {
  import opened Bits

  const MaxHighWaterMark: nat := 0x4000_0000

  /** The shifts and ors of the code; all numbers stay below 2 ^ 31, so >>> is a division. */
  function NewHighWaterMark(n: nat): nat
    requires n > 0
  {
    var a := BitOr(n - 1, (n - 1) / 2);
    var b := BitOr(a, a / 4);
    var c := BitOr(b, b / 16);
    var d := BitOr(c, c / 256);
    BitOr(d, d / 0x1_0000) + 1
  }

  lemma Shift2(x: nat)
    ensures Shift(x, 1) == x / 2 && Shift(x, 2) == x / 4
  {}

  lemma Shift4(x: nat)
    ensures Shift(x, 4) == x / 16
  {
    ShiftTwice(x, 2, 2);
    Shift2(x);
    Shift2(x / 4);
  }

  lemma Shift8(x: nat)
    ensures Shift(x, 8) == x / 256
  {
    ShiftTwice(x, 4, 4);
    Shift4(x);
    Shift4(x / 16);
  }

  lemma Shift16(x: nat)
    ensures Shift(x, 16) == x / 0x1_0000
  {
    ShiftTwice(x, 8, 8);
    Shift8(x);
    Shift8(x / 256);
  }

  /** Or-ing y with y >>> w, when y is x spread w places. */
  lemma Stage(x: nat, y: nat, w: nat, z: nat)
    requires y == Spread(x, w) && z == Shift(y, w)
    ensures BitOr(y, z) == Spread(x, w + w)
  {
    SpreadTwice(x, w);
  }

  lemma Stage1(x: nat)
    ensures BitOr(x, x / 2) == Spread(x, 2)
  {
    SpreadOne(x);
    Shift2(x);
    Stage(x, x, 1, x / 2);
  }

  lemma Stage2(x: nat, y: nat)
    requires y == Spread(x, 2)
    ensures BitOr(y, y / 4) == Spread(x, 4)
  {
    Shift2(y);
    Stage(x, y, 2, y / 4);
  }

  lemma Stage4(x: nat, y: nat)
    requires y == Spread(x, 4)
    ensures BitOr(y, y / 16) == Spread(x, 8)
  {
    Shift4(y);
    Stage(x, y, 4, y / 16);
  }

  lemma Stage8(x: nat, y: nat)
    requires y == Spread(x, 8)
    ensures BitOr(y, y / 256) == Spread(x, 16)
  {
    Shift8(y);
    Stage(x, y, 8, y / 256);
  }

  lemma Stage16(x: nat, y: nat)
    requires y == Spread(x, 16)
    ensures BitOr(y, y / 0x1_0000) == Spread(x, 32)
  {
    Shift16(y);
    Stage(x, y, 16, y / 0x1_0000);
  }

  lemma Whole(x: nat)
    requires x <= MaxHighWaterMark
    ensures Spread(x, 32) == Ones(x)
  {
    PowersOfTwo();
    SpreadAll(x, 32);
  }

  /** What the code computes, in one word. */
  lemma NewHighWaterMarkIs(n: nat)
    requires 0 < n <= MaxHighWaterMark
    ensures NewHighWaterMark(n) == Ones(n - 1) + 1
  {
    var x := n - 1;
    var a := BitOr(x, x / 2);
    var b := BitOr(a, a / 4);
    var c := BitOr(b, b / 16);
    var d := BitOr(c, c / 256);
    Stage1(x);
    Stage2(x, a);
    Stage4(x, b);
    Stage8(x, c);
    Stage16(x, d);
    Whole(x);
  }

  predicate PowerOfTwo(r: nat) {
    r == 1 || (r > 1 && r % 2 == 0 && PowerOfTwo(r / 2))
  }

  lemma {:induction false} OnesBound(x: nat)
    ensures PowerOfTwo(Ones(x) + 1) && x < Ones(x) + 1 && (x > 0 ==> Ones(x) + 1 <= 2 * x)
  {
    if x > 0 {
      OnesBound(x / 2);
      assert (Ones(x) + 1) / 2 == Ones(x / 2) + 1;
    }
  }

  /** A power of two below another is at most half of it. */
  lemma {:induction false} PowersApart(p: nat, r: nat)
    requires PowerOfTwo(p) && PowerOfTwo(r) && p < r
    ensures 2 * p <= r
  {
    if p > 1 { PowersApart(p / 2, r / 2); }
  }

  lemma LeastPower(r: nat, n: nat, p: nat)
    requires PowerOfTwo(r) && PowerOfTwo(p) && r < 2 * n && n <= p
    ensures r <= p
  {
    if p < r { PowersApart(p, r); }
  }

  /** r is the least power of two that is at least n. */
  ghost predicate IsLeastPower(r: nat, n: nat) {
    PowerOfTwo(r) && n <= r < 2 * n && forall p: nat :: PowerOfTwo(p) && n <= p ==> r <= p
  }

  lemma OnesLeast(x: nat)
    ensures IsLeastPower(Ones(x) + 1, x + 1)
  {
    OnesBound(x);
    forall p: nat | PowerOfTwo(p) && x + 1 <= p ensures Ones(x) + 1 <= p { LeastPower(Ones(x) + 1, x + 1, p); }
  }

  lemma NewHighWaterMarkLeast(n: nat)
    requires 0 < n <= MaxHighWaterMark
    ensures IsLeastPower(NewHighWaterMark(n), n)
  {
    NewHighWaterMarkIs(n);
    OnesLeast(n - 1);
  }
}
