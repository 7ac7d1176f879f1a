/** The integer kernels of util.c. */
module Kernels {
  import opened CTypes

  /** The bit-pair square root. `root` collects the result bits found so far;
      the C variable y holds that root scaled by the weight of the next bit. */
  method IntSqrt(x0: u32) returns (r: u32)
    ensures r * r <= x0 < (r + 1) * (r + 1)
  {
    var x := x0;
    if x <= 1 {
      assert (x + 1) * (x + 1) == x * x + 2 * x + 1 && x * x == x;
      return x;
    }
    var y: u32 := 0;
    var m: u32 := 0x4000_0000;
    // Bits below 2^(k+1) are still open; `step` is the weight of that gap.
    ghost var k, root, step := 15, 0, 0x1_0000;
    PowersOfFour();
    while m != 0
      invariant Gap(k, m, step)
      invariant Partial(x0, x, y, root, step)
      decreases k
    {
      NextPair(k);
      ghost var w := Pow2(k);
      TryBit(x0, x, y, root, w);
      var b := y + m;
      y := y / 2;
      if x >= b {
        x := x - b;
        y := y + m;
        root := root + w;
      }
      m := m / 4;
      k := k - 1;
      step := w;
    }
    r := y;
  }

  /** What is left to take the root of, once `root` is known down to `step`. */
  ghost predicate Partial(x0: int, x: int, y: int, root: int, step: int) {
    && 0 <= root && 0 < step && root + step <= 0x1_0000
    && y == root * step && 0 <= x == x0 - root * root && x0 < (root + step) * (root + step)
  }

  lemma TryBit(x0: nat, x: nat, y: nat, root: nat, w: nat)
    requires w > 0 && Partial(x0, x, y, root, 2 * w)
    ensures y + w * w < TWO32
    ensures x >= y + w * w ==> Partial(x0, x - (y + w * w), y / 2 + w * w, root + w, w)
    ensures x < y + w * w ==> Partial(x0, x, y / 2, root, w)
  {
    Products(root, w);
    assert root + w + w == root + 2 * w;
    MulMonotone(root + w, root + w, 0xFFFF);
    MulMonotone(0xFFFF, root + w, 0xFFFF);
    MulMonotone(root, 0, root);
  }

  lemma Products(root: int, w: int)
    ensures root * (2 * w) == 2 * (root * w)
    ensures (root + w) * (root + w) == root * root + 2 * (root * w) + w * w
    ensures (root + w) * w == root * w + w * w
  {
  }

  ghost predicate Gap(k: int, m: int, step: int) {
    && -1 <= k <= 15
    && (if k < 0 then m == 0 && step == 1 else m == Pow2(k) * Pow2(k) > 0 && step == 2 * Pow2(k))
  }

  lemma PowersOfFour()
    ensures Pow2(15) == 0x8000 && Pow2(15) * Pow2(15) == 0x4000_0000
  {
    assert Pow2(10) == 1024;
    assert Pow2(15) == 0x8000;
  }

  lemma NextPair(k: nat)
    requires k <= 15
    ensures Gap(k - 1, Pow2(k) * Pow2(k) / 4, Pow2(k))
  {
    if k > 0 {
      QuarterSquare(Pow2(k - 1));
    }
  }

  lemma QuarterSquare(h: nat)
    requires h > 0
    ensures (2 * h) * (2 * h) / 4 == h * h > 0
  {
    assert (2 * h) * (2 * h) == 4 * (h * h);
    MulMonotone(h, 1, h);
  }

  /** The branch-free base-2 logarithm: each step keeps the upper half of the
      word when it is not zero, by masking with -a. */
  function Ilog2(x: bv32): (r: bv32)
    ensures 0 < x < 0x8000_0000 ==> r < 31 && x >> r == 1
  {
    var a4 := if x >> 16 != 0 then 1 else 0;
    var c4: bv32 := a4 << 4;
    var y4 := ((!a4 + 1) & (x >> 16)) + (!(!a4 + 1) & x);
    var a3 := if y4 >> 8 != 0 then 1 else 0;
    var c3 := c4 + (a3 << 3);
    var y3 := ((!a3 + 1) & (y4 >> 8)) + (!(!a3 + 1) & y4);
    var a2 := if y3 >> 4 != 0 then 1 else 0;
    var c2 := c3 + (a2 << 2);
    var y2 := ((!a2 + 1) & (y3 >> 4)) + (!(!a2 + 1) & y3);
    var a1 := if y2 >> 2 != 0 then 1 else 0;
    var c1 := c2 + (a1 << 1);
    var y1 := ((!a1 + 1) & (y2 >> 2)) + (!(!a1 + 1) & y2);
    var a0 := if y1 >> 1 != 0 then 1 else 0;
    c1 + a0
  }

  /** The exponent of the highest power of two not above n. */
  function FloorLog2(n: nat): (r: nat)
    requires n > 0
    ensures Pow2(r) <= n < 2 * Pow2(r)
  {
    if n == 1 then 0 else 1 + FloorLog2(n / 2)
  }

  /** find_first_bit: binary search for the lowest set bit. */
  function FindFirstBit(word: bv32): (n: bv32)
    ensures word != 0 ==> n < 32 && (word >> n) & 1 == 1 && word & ((1 << n) - 1) == 0
    ensures word == 0 ==> n == 31
  {
    var n0: bv32 := if word & 0xffff == 0 then 16 else 0;
    var w0 := word >> n0;
    var n1: bv32 := if w0 & 0xff == 0 then 8 else 0;
    var w1 := w0 >> n1;
    var n2: bv32 := if w1 & 0xf == 0 then 4 else 0;
    var w2 := w1 >> n2;
    var n3: bv32 := if w2 & 0x3 == 0 then 2 else 0;
    var w3 := w2 >> n3;
    var n4: bv32 := if w3 & 0x1 == 0 then 1 else 0;
    n0 + n1 + n2 + n3 + n4
  }
}

/** One more bit behind a word, as a number and under the logarithm. */
module WordBits {
  import opened Kernels

  lemma DoubledEven(h: bv32)
    requires h < 0x8000_0000
    ensures (h << 1) as int == 2 * (h as int)
  {
  }

  lemma DoubledOdd(h: bv32)
    requires h < 0x8000_0000
    ensures ((h << 1) | 1) as int == 2 * (h as int) + 1
  {
  }

  lemma OneMore(h: bv32, b: bv32)
    ensures 0 < h < 0x4000_0000 && b <= 1 ==> Ilog2((h << 1) | b) == Ilog2(h) + 1
  {
  }

  lemma Below30(h: bv32)
    requires 0 < h < 0x4000_0000
    ensures Ilog2(h) < 30
  {
  }

  lemma LogOne()
    ensures Ilog2(1) as int == 0
  {
    assert Ilog2(1) == 0;
  }

  lemma Successor(b: bv32)
    requires b < 30
    ensures (b + 1) as int == b as int + 1
  {
  }

  lemma Bit(b: bv32)
    requires b <= 1
    ensures (b == 0 && b as int == 0) || (b == 1 && b as int == 1)
  {
  }

  lemma Positive(h: bv32)
    requires 0 < h
    ensures 0 < h as int
  {
  }

  lemma IsOne(x: bv32)
    ensures x as int == 1 <==> x == 1
  {
  }
}

/** The logarithm on words is the logarithm on numbers: both gain one with every
    bit put behind the operand. */
module Logarithm {
  import opened Kernels
  import opened WordBits

  function Half(x: bv32): bv32 { x >> 1 }

  function LastBit(x: bv32): bv32 { x & 1 }

  function Joined(h: bv32, b: bv32): bv32 { (h << 1) | b }

  function Log(x: bv32): bv32 { Ilog2(x) }

  lemma Split(x: bv32)
    requires 1 < x < 0x8000_0000
    ensures x == Joined(Half(x), LastBit(x)) && 0 < Half(x) < 0x4000_0000 && Half(x) < 0x8000_0000 && LastBit(x) <= 1
  {
  }

  // ---- operands as numbers ----

  lemma JoinedEven(h: bv32)
    requires h < 0x8000_0000
    ensures Joined(h, 0) as int == 2 * (h as int)
  {
    NoBit(h);
    hide Joined;
    DoubledEven(h);
  }

  lemma JoinedOdd(h: bv32)
    requires h < 0x8000_0000
    ensures Joined(h, 1) as int == 2 * (h as int) + 1
  {
    DoubledOdd(h);
  }

  lemma NoBit(h: bv32)
    ensures Joined(h, 0) == h << 1
  {
  }

  lemma JoinedValue(h: bv32, b: bv32)
    requires h < 0x8000_0000 && b <= 1
    ensures Joined(h, b) as int == 2 * (h as int) + b as int
  {
    hide *;
    Bit(b);
    JoinedEven(h);
    JoinedOdd(h);
  }

  lemma Halved(x: bv32)
    requires 1 < x < 0x8000_0000
    ensures x as int / 2 == Half(x) as int > 0
  {
    hide *;
    Split(x);
    JoinedValue(Half(x), LastBit(x));
    Bit(LastBit(x));
    Positive(Half(x));
    Halves(x as int, Half(x) as int, LastBit(x) as int);
  }

  lemma Halves(x: int, h: int, b: int)
    requires x == 2 * h + b && 0 <= b <= 1
    ensures x / 2 == h
  {
  }

  // ---- results as numbers ----

  lemma JoinedLog(h: bv32, b: bv32)
    requires 0 < h < 0x4000_0000 && b <= 1
    ensures Ilog2(Joined(h, b)) == Ilog2(h) + 1
  {
    hide Ilog2;
    OneMore(h, b);
  }

  lemma LogHalved(x: bv32)
    requires 1 < x < 0x8000_0000
    ensures Log(x) == Log(Half(x)) + 1 && Log(Half(x)) < 30
  {
    hide Half, LastBit, Joined;
    Split(x);
    JoinedLog(Half(x), LastBit(x));
    Below30(Half(x));
  }

  lemma LogGrows(x: bv32)
    requires 1 < x < 0x8000_0000
    ensures Log(x) as int == Log(Half(x)) as int + 1
  {
    hide *;
    LogHalved(x);
    Successor(Log(Half(x)));
  }

  /** For every positive operand. */
  lemma {:induction false} Ilog2IsFloorLog2(x: bv32)
    requires 0 < x < 0x8000_0000
    ensures x as int > 0 && Ilog2(x) as int == FloorLog2(x as int)
    decreases x as int
  {
    hide Ilog2, Half;
    Positive(x);
    IsOne(x);
    if x == 1 {
      LogOne();
    } else {
      hide Log;
      Split(x);
      Halved(x);
      LogGrows(x);
      Ilog2IsFloorLog2(Half(x));
      LogIs(x);
      LogIs(Half(x));
    }
  }

  lemma LogIs(x: bv32)
    ensures Log(x) == Ilog2(x)
  {
  }
}
