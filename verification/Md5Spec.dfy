/** Bitwise choice without a multiplexer. */
module Choice {
  lemma Xor(x: bv32, y: bv32, z: bv32)
    ensures z ^ (x & (y ^ z)) == (x & y) | (!x & z)
  {
  }

  lemma Order(x: bv32, y: bv32)
    ensures x & y == y & x
  {
  }
}

/** The bitwise functions of MD5: the ones of RFC 1321 (section 3.4) and the ones
    the C macros compute. */
module Md5Bits {
  import Choice

  function F(x: bv32, y: bv32, z: bv32): bv32 { (x & y) | (!x & z) }

  function G(x: bv32, y: bv32, z: bv32): bv32 { (x & z) | (y & !z) }

  function H(x: bv32, y: bv32, z: bv32): bv32 { x ^ y ^ z }

  function I(x: bv32, y: bv32, z: bv32): bv32 { y ^ (x | !z) }

  function F1(x: bv32, y: bv32, z: bv32): bv32 { z ^ (x & (y ^ z)) }

  function F2(x: bv32, y: bv32, z: bv32): bv32 { F1(z, x, y) }

  lemma F1IsF(x: bv32, y: bv32, z: bv32)
    ensures F1(x, y, z) == F(x, y, z)
  {
    Choice.Xor(x, y, z);
  }

  lemma F2IsG(x: bv32, y: bv32, z: bv32)
    ensures F2(x, y, z) == G(x, y, z)
  {
    Choice.Xor(z, x, y);
    Choice.Order(x, z);
  }

  function Rotated(w: bv32, s: nat): bv32
    requires 0 < s < 32
  {
    (w << s) | (w >> (32 - s))
  }

  /** Addition modulo 2^32. */
  function Add(x: bv32, y: bv32): bv32 { x + y }

  /** The sum of a step in the standard, and in the order of the macro. */
  function Sum(w: bv32, f: bv32, x: bv32, t: bv32): bv32 { w + f + x + t }

  function MacroSum(w: bv32, f: bv32, x: bv32, t: bv32): bv32 { w + (f + (x + t)) }

  lemma SumsAgree(w: bv32, f: bv32, x: bv32, t: bv32)
    ensures MacroSum(w, f, x, t) == Sum(w, f, x, t)
  {
  }

  lemma AddCommutes(x: bv32, y: bv32)
    ensures Add(x, y) == Add(y, x)
  {
  }

  /** A word from four bytes, the low-order one first, and back. */
  function Word(b0: bv8, b1: bv8, b2: bv8, b3: bv8): bv32 {
    (b0 as bv32) | ((b1 as bv32) << 8) | ((b2 as bv32) << 16) | ((b3 as bv32) << 24)
  }

  function ByteOf(w: bv32, j: nat): bv8
    requires j < 4
  {
    ((w >> (8 * j)) & 0xFF) as bv8
  }
}

/** The MD5 message-digest algorithm as RFC 1321 defines it (sections 3.1 to 3.5). */
module Md5Spec {
  import opened Bytes
  import opened Md5Bits

  datatype State = State(a: bv32, b: bv32, c: bv32, d: bv32)

  type Block = s: seq<bv8> | |s| == 64 witness seq(64, _ => 0)

  type Words = x: seq<bv32> | |x| == 16 witness seq(16, _ => 0)

  const INITIAL := State(0x67452301, 0xefcdab89, 0x98badcfe, 0x10325476)

  const TABLE: seq<seq<bv32>> := [
    [0xd76aa478, 0xe8c7b756, 0x242070db, 0xc1bdceee],
    [0xf57c0faf, 0x4787c62a, 0xa8304613, 0xfd469501],
    [0x698098d8, 0x8b44f7af, 0xffff5bb1, 0x895cd7be],
    [0x6b901122, 0xfd987193, 0xa679438e, 0x49b40821],
    [0xf61e2562, 0xc040b340, 0x265e5a51, 0xe9b6c7aa],
    [0xd62f105d, 0x02441453, 0xd8a1e681, 0xe7d3fbc8],
    [0x21e1cde6, 0xc33707d6, 0xf4d50d87, 0x455a14ed],
    [0xa9e3e905, 0xfcefa3f8, 0x676f02d9, 0x8d2a4c8a],
    [0xfffa3942, 0x8771f681, 0x6d9d6122, 0xfde5380c],
    [0xa4beea44, 0x4bdecfa9, 0xf6bb4b60, 0xbebfbc70],
    [0x289b7ec6, 0xeaa127fa, 0xd4ef3085, 0x04881d05],
    [0xd9d4d039, 0xe6db99e5, 0x1fa27cf8, 0xc4ac5665],
    [0xf4292244, 0x432aff97, 0xab9423a7, 0xfc93a039],
    [0x655b59c3, 0x8f0ccc92, 0xffeff47d, 0x85845dd1],
    [0x6fa87e4f, 0xfe2ce6e0, 0xa3014314, 0x4e0811a1],
    [0xf7537e82, 0xbd3af235, 0x2ad7d2bb, 0xeb86d391]]

  const ORDER: seq<seq<nat>> := [
    [0, 1, 2, 3],
    [4, 5, 6, 7],
    [8, 9, 10, 11],
    [12, 13, 14, 15],
    [1, 6, 11, 0],
    [5, 10, 15, 4],
    [9, 14, 3, 8],
    [13, 2, 7, 12],
    [5, 8, 11, 14],
    [1, 4, 7, 10],
    [13, 0, 3, 6],
    [9, 12, 15, 2],
    [0, 7, 14, 5],
    [12, 3, 10, 1],
    [8, 15, 6, 13],
    [4, 11, 2, 9]]

  const SHIFTS: seq<seq<nat>> := [[7, 12, 17, 22], [5, 9, 14, 20], [4, 11, 16, 23], [6, 10, 15, 21]]

  type Index = i: int | 0 <= i < 64

  function T(i: Index): bv32 { TABLE[i / 4][i % 4] }

  function Shift(i: Index): (s: nat)
    ensures 0 < s < 32
  {
    SHIFTS[i / 16][i % 4]
  }

  /** The message word step i uses. */
  function K(i: Index): (k: nat)
    ensures k < 16
  {
    ORDER[i / 4][i % 4]
  }

  function Fun(i: Index, x: bv32, y: bv32, z: bv32): bv32 {
    if i < 16 then F(x, y, z) else if i < 32 then G(x, y, z) else if i < 48 then H(x, y, z) else I(x, y, z)
  }

  function NewWord(i: Index, a: bv32, b: bv32, c: bv32, d: bv32, x: Words): bv32 {
    Add(b, Rotated(Sum(a, Fun(i, b, c, d), x[K(i)], T(i)), Shift(i)))
  }

  /** One step; the four words change roles instead of the steps naming them in turn. */
  function Step(s: State, i: Index, x: Words): State {
    State(s.d, NewWord(i, s.a, s.b, s.c, s.d, x), s.b, s.c)
  }

  function Steps(s: State, x: Words, n: nat): State
    requires n <= 64
  {
    if n == 0 then s else Step(Steps(s, x, n - 1), n - 1, x)
  }

  function WordsOf(b: Block): Words {
    seq(16, i requires 0 <= i < 16 => Word(b[4 * i], b[4 * i + 1], b[4 * i + 2], b[4 * i + 3]))
  }

  function Plus(s: State, t: State): State { State(Add(s.a, t.a), Add(s.b, t.b), Add(s.c, t.c), Add(s.d, t.d)) }

  function Compress(s: State, b: Block): State { Plus(s, Steps(s, WordsOf(b), 64)) }

  /** The whole blocks of a message, one after the other. */
  function Hash(m: seq<bv8>): State
    requires |m| % 64 == 0
    decreases |m|
  {
    if m == [] then INITIAL else Compress(Hash(m[..|m| - 64]), m[|m| - 64..])
  }

  /** A 64-bit count, the low-order byte first. */
  function Count(bits: nat): (s: seq<bv8>)
    ensures |s| == 8
  {
    seq(8, j requires 0 <= j < 8 => ToByte(bits / Power(j)))
  }

  function Power(j: nat): (p: nat)
    ensures p > 0
  {
    if j == 0 then 1 else 256 * Power(j - 1)
  }

  /** How many zero bytes lead from one byte past n to 56 modulo 64. */
  function Zeros(n: nat): (z: nat)
    ensures z < 64 && (n + 1 + z) % 64 == 56 && (n + 9 + z) % 64 == 0
  {
    var p := n % 64;
    if p < 56 then 55 - p else 119 - p
  }

  /** Padding: a one bit, zeros up to 56 bytes modulo 64, and the bit count modulo 2^64. */
  function Padding(n: nat): (p: seq<bv8>)
    ensures |p| == 9 + Zeros(n)
  {
    [0x80] + seq(Zeros(n), _ => 0) + Count(8 * n % 0x1_0000_0000_0000_0000)
  }

  function Padded(m: seq<bv8>): (p: seq<bv8>)
    ensures |p| % 64 == 0
  {
    m + Padding(|m|)
  }

  function Output(s: State): (d: seq<bv8>)
    ensures |d| == 16
  {
    var w := [s.a, s.b, s.c, s.d];
    seq(16, j requires 0 <= j < 16 => ByteOf(w[j / 4], j % 4))
  }

  function Digest(m: seq<bv8>): seq<bv8> { Output(Hash(Padded(m))) }
}
