/** Integer widths and the rounding macros of the C sources. */
module CTypes {
  const TWO32 := 0x1_0000_0000

  type u8 = x: int | 0 <= x < 256
  type u32 = x: int | 0 <= x < TWO32

  datatype Result<+T> = Ok(value: T) | Err

  /** Truncation of an unsigned result to 32 bits. */
  function Wrap32(x: int): u32 { x % TWO32 }

  function Pow2(n: nat): (r: nat)
    ensures r >= 1
  {
    if n == 0 then 1 else 2 * Pow2(n - 1)
  }

  /** DIV_ROUND_CLOSEST on uint32_t operands: the addition wraps. */
  function DivRoundClosest(x: u32, divisor: u32): u32
    requires divisor > 0
  {
    var q := Wrap32(x + divisor / 2) / divisor;
    QuotientFits(Wrap32(x + divisor / 2), divisor);
    q
  }

  lemma QuotientFits(x: nat, d: nat)
    requires d > 0
    ensures 0 <= x / d <= x
  {
    MulMonotone(x / d, 1, d);
  }

  /** Division of naturals by a positive divisor. */
  function FloorDiv(x: nat, d: nat): nat
    requires d > 0
  {
    QuotientFits(x, d);
    x / d
  }

  lemma MulMonotone(a: nat, b: int, c: int)
    requires b <= c
    ensures a * b <= a * c && b * a <= c * a
  {
  }

  lemma Cancel(a: nat, b: int, c: int)
    requires a * b < a * c
    ensures b < c
  {
    if c <= b {
      MulMonotone(a, c, b);
    }
  }

  lemma DivBounds(x: nat, d: nat)
    requires d > 0
    ensures d * (x / d) <= x < d * (x / d) + d
  {
  }

  lemma QuotientIs(x: int, d: nat, q: int)
    requires d > 0 && d * q <= x < d * q + d
    ensures x / d == q && x % d == x - d * q
  {
    var k := x / d;
    assert d * (k + 1) == d * k + d && d * (q + 1) == d * q + d;
    if k < q {
      MulMonotone(d, k + 1, q);
    } else if q < k {
      MulMonotone(d, q + 1, k);
    }
  }

  /** Nested floors collapse into one division by the product. */
  lemma NestedFloor(x: nat, a: nat, b: nat)
    requires a > 0 && b > 0
    ensures a * b > 0 && x / a / b == x / (a * b)
  {
    var q, r := x / a, x % a;
    var s, t := q / b, q % b;
    assert x == a * q + r && q == b * s + t;
    assert a * q == a * (b * s) + a * t by { Distribute(a, b * s, t); }
    assert a * (b * s) == (a * b) * s;
    MulMonotone(a, t, b - 1);
    assert a * (b - 1) == a * b - a by { Distribute(a, b, -1); }
    MulMonotone(a, 1, b);
    MulMonotone(a, 0, t);
    QuotientIs(x, a * b, s);
  }

  lemma Distribute(a: int, b: int, c: int)
    ensures a * (b + c) == a * b + a * c
  {
  }
  // ---- checksums ----

  const ALL_ONES: u32 := 0xFFFF_FFFF

  /** Adding a word to a wrapped sum; and the inverted sum as a checksum: words and
      checksum add up to all ones. */
  lemma ChecksumLaw(sum: nat, w: u32)
    ensures Wrap32(sum % TWO32 + w) == (sum + w) % TWO32
    ensures (sum + w) % TWO32 == ALL_ONES <==> w == ALL_ONES - sum % TWO32
  {
  }

  // ---- ascending lists ----

  predicate Ascending(s: seq<nat>) { forall i, j :: 0 <= i < j < |s| ==> s[i] < s[j] }

  lemma AscendingOne(t: nat)
    ensures Ascending([]) && Ascending([t])
  {
  }

  lemma AscendingBehind(t: nat, s: seq<nat>)
    requires Ascending(s) && forall e :: e in s ==> t < e
    ensures Ascending([t] + s)
  {
    forall i, j | 0 <= i < j < |s| + 1 ensures ([t] + s)[i] < ([t] + s)[j] {
      assert s[j - 1] in s;
    }
  }

  lemma AscendingMore(s: seq<nat>, x: nat)
    requires Ascending(s) && forall e :: e in s ==> e < x
    ensures Ascending(s + [x])
  {
    forall i, j | 0 <= i < j < |s| + 1 ensures (s + [x])[i] < (s + [x])[j] {
      assert s[i] in s;
    }
  }

  /** An ascending list of numbers below a bound is no longer than the bound. */
  lemma {:induction false} AscendingIsShort(s: seq<nat>, bound: nat)
    requires Ascending(s) && forall e :: e in s ==> e < bound
    ensures |s| <= bound
    decreases bound
  {
    if s != [] {
      var n := |s| - 1;
      assert s[n] in s;
      forall e | e in s[..n] ensures e < bound - 1 {
        var i :| 0 <= i < n && s[i] == e;
        assert s[i] < s[n];
      }
      AscendingIsShort(s[..n], bound - 1);
    }
  }
}
