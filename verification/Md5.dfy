/** The streaming MD5 of the boot loader. */
module Md5Rounds {
  import opened Md5Bits
  import opened Md5Spec

  /** MD5_STEP, for the value f of the round's function. */
  function MacroStep(w: bv32, p: bv32, f: bv32, x: bv32, t: bv32, s: nat): bv32
    requires 0 < s < 32
  {
    Add(Rotated(MacroSum(w, f, x, t), s), p)
  }

  function MacroFun(i: Index, x: bv32, y: bv32, z: bv32): bv32 {
    if i < 16 then F1(x, y, z) else if i < 32 then F2(x, y, z) else if i < 48 then H(x, y, z) else I(x, y, z)
  }

  /** The macro computes the new word of its step. */
  lemma MacroIsStep(i: Index, w: bv32, p: bv32, q: bv32, r: bv32, x: Words)
    ensures MacroStep(w, p, MacroFun(i, p, q, r), x[K(i)], T(i), Shift(i)) == NewWord(i, w, p, q, r, x)
  {
    hide F1, F2, F, G, H, I, Rotated, Add, Sum, MacroSum, T, Shift, K;
    F1IsF(p, q, r);
    F2IsG(p, q, r);
    SumsAgree(w, Fun(i, p, q, r), x[K(i)], T(i));
    AddCommutes(p, Rotated(Sum(w, Fun(i, p, q, r), x[K(i)], T(i)), Shift(i)));
  }

  /** Four steps in a row bring the words back to their places. */
  lemma FourSteps(s: State, x: Words, i: nat, a: bv32, b: bv32, c: bv32, d: bv32)
    requires i + 4 <= 64 && Steps(s, x, i) == State(a, b, c, d)
    ensures var a1 := NewWord(i, a, b, c, d, x);
            var d1 := NewWord(i + 1, d, a1, b, c, x);
            var c1 := NewWord(i + 2, c, d1, a1, b, x);
            Steps(s, x, i + 4) == State(a1, NewWord(i + 3, b, c1, d1, a1, x), c1, d1)
  {
    hide NewWord;
    assert Steps(s, x, i + 1) == Step(Steps(s, x, i), i, x);
    assert Steps(s, x, i + 2) == Step(Steps(s, x, i + 1), i + 1, x);
    assert Steps(s, x, i + 3) == Step(Steps(s, x, i + 2), i + 2, x);
    assert Steps(s, x, i + 4) == Step(Steps(s, x, i + 3), i + 3, x);
  }

  /** The same in terms of the macro. */
  ghost function Quad(i: nat, s: State, x: Words): State
    requires i + 4 <= 64
  {
    var a := MacroStep(s.a, s.b, MacroFun(i, s.b, s.c, s.d), x[K(i)], T(i), Shift(i));
    var d := MacroStep(s.d, a, MacroFun(i + 1, a, s.b, s.c), x[K(i + 1)], T(i + 1), Shift(i + 1));
    var c := MacroStep(s.c, d, MacroFun(i + 2, d, a, s.b), x[K(i + 2)], T(i + 2), Shift(i + 2));
    State(a, MacroStep(s.b, c, MacroFun(i + 3, c, d, a), x[K(i + 3)], T(i + 3), Shift(i + 3)), c, d)
  }

  lemma QuadIsFourSteps(s: State, x: Words, i: nat)
    requires i + 4 <= 64
    ensures Quad(i, Steps(s, x, i), x) == Steps(s, x, i + 4)
  {
    hide NewWord, MacroStep, MacroFun, K, T, Shift, Steps, Add;
    var t := Steps(s, x, i);
    FourSteps(s, x, i, t.a, t.b, t.c, t.d);
    MacroIsStep(i, t.a, t.b, t.c, t.d, x);
    var a := NewWord(i, t.a, t.b, t.c, t.d, x);
    MacroIsStep(i + 1, t.d, a, t.b, t.c, x);
    var d := NewWord(i + 1, t.d, a, t.b, t.c, x);
    MacroIsStep(i + 2, t.c, d, a, t.b, x);
    var c := NewWord(i + 2, t.c, d, a, t.b, x);
    MacroIsStep(i + 3, t.b, c, d, a, x);
  }

  /** Round 1 of MD5Transform. */
  method RoundOne(a0: bv32, b0: bv32, c0: bv32, d0: bv32, x: Words, ghost s: State)
    returns (a: bv32, b: bv32, c: bv32, d: bv32)
    requires State(a0, b0, c0, d0) == Steps(s, x, 0)
    ensures State(a, b, c, d) == Steps(s, x, 16)
  {
    hide MacroStep, Steps, F1, F2, H, I, Add;
    a, b, c, d := a0, b0, c0, d0;
    a := MacroStep(a, b, F1(b, c, d), x[0], 0xd76aa478, 7);
    d := MacroStep(d, a, F1(a, b, c), x[1], 0xe8c7b756, 12);
    c := MacroStep(c, d, F1(d, a, b), x[2], 0x242070db, 17);
    b := MacroStep(b, c, F1(c, d, a), x[3], 0xc1bdceee, 22);
    QuadIsFourSteps(s, x, 0);
    a := MacroStep(a, b, F1(b, c, d), x[4], 0xf57c0faf, 7);
    d := MacroStep(d, a, F1(a, b, c), x[5], 0x4787c62a, 12);
    c := MacroStep(c, d, F1(d, a, b), x[6], 0xa8304613, 17);
    b := MacroStep(b, c, F1(c, d, a), x[7], 0xfd469501, 22);
    QuadIsFourSteps(s, x, 4);
    a := MacroStep(a, b, F1(b, c, d), x[8], 0x698098d8, 7);
    d := MacroStep(d, a, F1(a, b, c), x[9], 0x8b44f7af, 12);
    c := MacroStep(c, d, F1(d, a, b), x[10], 0xffff5bb1, 17);
    b := MacroStep(b, c, F1(c, d, a), x[11], 0x895cd7be, 22);
    QuadIsFourSteps(s, x, 8);
    a := MacroStep(a, b, F1(b, c, d), x[12], 0x6b901122, 7);
    d := MacroStep(d, a, F1(a, b, c), x[13], 0xfd987193, 12);
    c := MacroStep(c, d, F1(d, a, b), x[14], 0xa679438e, 17);
    b := MacroStep(b, c, F1(c, d, a), x[15], 0x49b40821, 22);
    QuadIsFourSteps(s, x, 12);
  }

  /** Round 2 of MD5Transform. */
  method RoundTwo(a0: bv32, b0: bv32, c0: bv32, d0: bv32, x: Words, ghost s: State)
    returns (a: bv32, b: bv32, c: bv32, d: bv32)
    requires State(a0, b0, c0, d0) == Steps(s, x, 16)
    ensures State(a, b, c, d) == Steps(s, x, 32)
  {
    hide MacroStep, Steps, F1, F2, H, I, Add;
    a, b, c, d := a0, b0, c0, d0;
    a := MacroStep(a, b, F2(b, c, d), x[1], 0xf61e2562, 5);
    d := MacroStep(d, a, F2(a, b, c), x[6], 0xc040b340, 9);
    c := MacroStep(c, d, F2(d, a, b), x[11], 0x265e5a51, 14);
    b := MacroStep(b, c, F2(c, d, a), x[0], 0xe9b6c7aa, 20);
    QuadIsFourSteps(s, x, 16);
    a := MacroStep(a, b, F2(b, c, d), x[5], 0xd62f105d, 5);
    d := MacroStep(d, a, F2(a, b, c), x[10], 0x02441453, 9);
    c := MacroStep(c, d, F2(d, a, b), x[15], 0xd8a1e681, 14);
    b := MacroStep(b, c, F2(c, d, a), x[4], 0xe7d3fbc8, 20);
    QuadIsFourSteps(s, x, 20);
    a := MacroStep(a, b, F2(b, c, d), x[9], 0x21e1cde6, 5);
    d := MacroStep(d, a, F2(a, b, c), x[14], 0xc33707d6, 9);
    c := MacroStep(c, d, F2(d, a, b), x[3], 0xf4d50d87, 14);
    b := MacroStep(b, c, F2(c, d, a), x[8], 0x455a14ed, 20);
    QuadIsFourSteps(s, x, 24);
    a := MacroStep(a, b, F2(b, c, d), x[13], 0xa9e3e905, 5);
    d := MacroStep(d, a, F2(a, b, c), x[2], 0xfcefa3f8, 9);
    c := MacroStep(c, d, F2(d, a, b), x[7], 0x676f02d9, 14);
    b := MacroStep(b, c, F2(c, d, a), x[12], 0x8d2a4c8a, 20);
    QuadIsFourSteps(s, x, 28);
  }

  /** Round 3 of MD5Transform. */
  method RoundThree(a0: bv32, b0: bv32, c0: bv32, d0: bv32, x: Words, ghost s: State)
    returns (a: bv32, b: bv32, c: bv32, d: bv32)
    requires State(a0, b0, c0, d0) == Steps(s, x, 32)
    ensures State(a, b, c, d) == Steps(s, x, 48)
  {
    hide MacroStep, Steps, F1, F2, H, I, Add;
    a, b, c, d := a0, b0, c0, d0;
    a := MacroStep(a, b, H(b, c, d), x[5], 0xfffa3942, 4);
    d := MacroStep(d, a, H(a, b, c), x[8], 0x8771f681, 11);
    c := MacroStep(c, d, H(d, a, b), x[11], 0x6d9d6122, 16);
    b := MacroStep(b, c, H(c, d, a), x[14], 0xfde5380c, 23);
    QuadIsFourSteps(s, x, 32);
    a := MacroStep(a, b, H(b, c, d), x[1], 0xa4beea44, 4);
    d := MacroStep(d, a, H(a, b, c), x[4], 0x4bdecfa9, 11);
    c := MacroStep(c, d, H(d, a, b), x[7], 0xf6bb4b60, 16);
    b := MacroStep(b, c, H(c, d, a), x[10], 0xbebfbc70, 23);
    QuadIsFourSteps(s, x, 36);
    a := MacroStep(a, b, H(b, c, d), x[13], 0x289b7ec6, 4);
    d := MacroStep(d, a, H(a, b, c), x[0], 0xeaa127fa, 11);
    c := MacroStep(c, d, H(d, a, b), x[3], 0xd4ef3085, 16);
    b := MacroStep(b, c, H(c, d, a), x[6], 0x04881d05, 23);
    QuadIsFourSteps(s, x, 40);
    a := MacroStep(a, b, H(b, c, d), x[9], 0xd9d4d039, 4);
    d := MacroStep(d, a, H(a, b, c), x[12], 0xe6db99e5, 11);
    c := MacroStep(c, d, H(d, a, b), x[15], 0x1fa27cf8, 16);
    b := MacroStep(b, c, H(c, d, a), x[2], 0xc4ac5665, 23);
    QuadIsFourSteps(s, x, 44);
  }

  /** Round 4 of MD5Transform. */
  method RoundFour(a0: bv32, b0: bv32, c0: bv32, d0: bv32, x: Words, ghost s: State)
    returns (a: bv32, b: bv32, c: bv32, d: bv32)
    requires State(a0, b0, c0, d0) == Steps(s, x, 48)
    ensures State(a, b, c, d) == Steps(s, x, 64)
  {
    hide MacroStep, Steps, F1, F2, H, I, Add;
    a, b, c, d := a0, b0, c0, d0;
    a := MacroStep(a, b, I(b, c, d), x[0], 0xf4292244, 6);
    d := MacroStep(d, a, I(a, b, c), x[7], 0x432aff97, 10);
    c := MacroStep(c, d, I(d, a, b), x[14], 0xab9423a7, 15);
    b := MacroStep(b, c, I(c, d, a), x[5], 0xfc93a039, 21);
    QuadIsFourSteps(s, x, 48);
    a := MacroStep(a, b, I(b, c, d), x[12], 0x655b59c3, 6);
    d := MacroStep(d, a, I(a, b, c), x[3], 0x8f0ccc92, 10);
    c := MacroStep(c, d, I(d, a, b), x[10], 0xffeff47d, 15);
    b := MacroStep(b, c, I(c, d, a), x[1], 0x85845dd1, 21);
    QuadIsFourSteps(s, x, 52);
    a := MacroStep(a, b, I(b, c, d), x[8], 0x6fa87e4f, 6);
    d := MacroStep(d, a, I(a, b, c), x[15], 0xfe2ce6e0, 10);
    c := MacroStep(c, d, I(d, a, b), x[6], 0xa3014314, 15);
    b := MacroStep(b, c, I(c, d, a), x[13], 0x4e0811a1, 21);
    QuadIsFourSteps(s, x, 56);
    a := MacroStep(a, b, I(b, c, d), x[4], 0xf7537e82, 6);
    d := MacroStep(d, a, I(a, b, c), x[11], 0xbd3af235, 10);
    c := MacroStep(c, d, I(d, a, b), x[2], 0x2ad7d2bb, 15);
    b := MacroStep(b, c, I(c, d, a), x[9], 0xeb86d391, 21);
    QuadIsFourSteps(s, x, 60);
  }
}

/** The hash context, and what feeding it bytes means. */
module Md5Context {
  import opened Md5Spec

  const TWO64 := 0x1_0000_0000_0000_0000

  /** buffer, bits and intermediate; the bits past the fill level are leftovers. */
  datatype Ctx = Ctx(hash: State, bits: nat, data: Block)
  {
    ghost predicate Valid() { bits < TWO64 && bits % 8 == 0 }

    /** How many bytes wait in the intermediate block. */
    function Fill(): (p: nat)
      ensures p < 64
    {
      bits / 8 % 64
    }
  }

  function Start(data: Block): Ctx { Ctx(INITIAL, 0, data) }

  /** One byte at a time: it goes to its place in the block, and a full block is hashed. */
  function FeedByte(c: Ctx, b: bv8): Ctx {
    var data := c.data[c.Fill() := b];
    Ctx(if c.Fill() == 63 then Compress(c.hash, data) else c.hash, (c.bits + 8) % TWO64, data)
  }

  function Feed(c: Ctx, m: seq<bv8>): Ctx
    decreases |m|
  {
    if m == [] then c else FeedByte(Feed(c, m[..|m| - 1]), m[|m| - 1])
  }

  /** Feeding x and then y is feeding x + y: the whole context, leftovers included,
      does not depend on how the bytes were split. */
  lemma {:induction false} FeedConcat(c: Ctx, x: seq<bv8>, y: seq<bv8>)
    ensures Feed(Feed(c, x), y) == Feed(c, x + y)
    decreases |y|
  {
    if y == [] {
      assert x + y == x;
    } else {
      var n := |y| - 1;
      FeedConcat(c, x, y[..n]);
      assert (x + y)[..|x| + n] == x + y[..n];
    }
  }

  /** The bit count is the true one modulo 2^64. */
  lemma {:induction false} FeedBits(c: Ctx, m: seq<bv8>)
    requires c.Valid()
    ensures Feed(c, m).Valid() && Feed(c, m).bits == (c.bits + 8 * |m|) % TWO64
    ensures Feed(c, m).Fill() == (c.Fill() + |m|) % 64
    decreases |m|
  {
    hide Compress;
    FillLaw(c.bits, |m|);
    if m != [] {
      FeedBits(c, m[..|m| - 1]);
      hide Ctx.Fill;
      CountLaw(c.bits, |m| - 1);
    }
  }

  lemma CountLaw(bits: nat, n: nat)
    requires bits % 8 == 0
    ensures ((bits + 8 * n) % TWO64 + 8) % TWO64 == (bits + 8 * (n + 1)) % TWO64
    ensures (bits + 8 * (n + 1)) % TWO64 % 8 == 0
  {
  }

  lemma FillLaw(bits: nat, n: nat)
    requires bits % 8 == 0
    ensures (bits + 8 * n) % TWO64 / 8 % 64 == (bits / 8 % 64 + n) % 64
  {
    var k, b := (bits + 8 * n) / TWO64, bits / 8;
    assert (bits + 8 * n) % TWO64 == 8 * (b + n - k * 0x2000_0000_0000_0000);
    assert (b + n - k * 0x2000_0000_0000_0000) % 64 == (b + n) % 64;
  }

  function Overwrite(d: Block, p: nat, x: seq<bv8>): Block
    requires p + |x| <= 64
  {
    d[..p] + x + d[p + |x|..]
  }

  /** As long as the block does not fill up, bytes are only stored. */
  lemma {:induction false} FeedInside(c: Ctx, x: seq<bv8>)
    requires c.Valid() && c.Fill() + |x| < 64
    ensures Feed(c, x).hash == c.hash && Feed(c, x).data == Overwrite(c.data, c.Fill(), x)
    decreases |x|
  {
    hide Compress, Ctx.Fill;
    if x == [] {
      assert Overwrite(c.data, c.Fill(), x) == c.data;
    } else {
      var n := |x| - 1;
      FeedInside(c, x[..n]);
      FeedBits(c, x[..n]);
      OverwriteMore(c.data, c.Fill(), x);
    }
  }

  lemma OverwriteMore(d: Block, p: nat, x: seq<bv8>)
    requires x != [] && p + |x| <= 64
    ensures var n := |x| - 1; Overwrite(d, p, x[..n])[p + n := x[n]] == Overwrite(d, p, x)
  {
  }

  /** Bytes that fill the block up exactly hash it. */
  lemma FeedToEnd(c: Ctx, x: seq<bv8>)
    requires c.Valid() && c.Fill() + |x| == 64
    ensures var d := Overwrite(c.data, c.Fill(), x); Feed(c, x).hash == Compress(c.hash, d) && Feed(c, x).data == d
  {
    hide Compress, Ctx.Fill, Overwrite;
    var n := |x| - 1;
    FeedInside(c, x[..n]);
    FeedBits(c, x[..n]);
    OverwriteMore(c.data, c.Fill(), x);
  }

  /** On whole blocks, feeding byte by byte is hashing block by block. */
  lemma {:induction false} FeedIsHash(data: Block, m: seq<bv8>)
    requires |m| % 64 == 0
    ensures Feed(Start(data), m).hash == Hash(m)
    decreases |m|
  {
    hide Compress, Overwrite, FeedByte, Ctx.Fill;
    if m != [] {
      var front, block := m[..|m| - 64], m[|m| - 64..];
      FeedIsHash(data, front);
      StartIsEmpty(data);
      FeedBits(Start(data), front);
      var c := Feed(Start(data), front);
      FeedToEnd(c, block);
      OverwriteAll(c.data, block);
      FeedConcat(Start(data), front, block);
      assert front + block == m;
    }
  }

  lemma StartIsEmpty(data: Block)
    ensures Start(data).Valid() && Start(data).Fill() == 0
  {
  }

  lemma OverwriteAll(d: Block, x: Block)
    ensures Overwrite(d, 0, x) == x
  {
  }

  /** The padding of a context, which only its bit count decides. */
  function PaddingOf(c: Ctx): (p: seq<bv8>)
    ensures |p| == 9 + Zeros(c.Fill()) && (c.Fill() + |p|) % 64 == 0
  {
    [0x80] + seq(Zeros(c.Fill()), _ => 0) + Count(c.bits)
  }

  /** The digest a context leads to. */
  function Finished(c: Ctx): seq<bv8> { Output(Feed(c, PaddingOf(c)).hash) }

  /** Streaming: whatever was in the block before, a context that has been fed the
      bytes of m leads to the MD5 digest of m. */
  lemma FinishedIsDigest(data: Block, m: seq<bv8>)
    ensures Finished(Feed(Start(data), m)) == Digest(m)
  {
    PaddingMatches(data, m);
    hide Compress, Count, Output, Feed, Hash, Padding, PaddingOf;
    FeedConcat(Start(data), m, Padding(|m|));
    FeedIsHash(data, Padded(m));
  }

  lemma PaddingMatches(data: Block, m: seq<bv8>)
    ensures PaddingOf(Feed(Start(data), m)) == Padding(|m|)
  {
    hide *;
    FedCounts(data, m);
    SameZeros(|m|);
    SamePadding(Feed(Start(data), m), |m|);
  }

  lemma FedCounts(data: Block, m: seq<bv8>)
    ensures Feed(Start(data), m).bits == 8 * |m| % TWO64 && Feed(Start(data), m).Fill() == |m| % 64
  {
    hide Feed, Ctx.Fill;
    StartIsEmpty(data);
    FeedBits(Start(data), m);
  }

  lemma SamePadding(c: Ctx, n: nat)
    requires c.bits == 8 * n % TWO64 && Zeros(c.Fill()) == Zeros(n)
    ensures PaddingOf(c) == Padding(n)
  {
    hide Count, Ctx.Fill, Zeros;
  }

  lemma SameZeros(n: nat)
    ensures Zeros(n % 64) == Zeros(n)
  {
  }
}

/** The code of md5.c on its context. */
module Md5 {
  import opened CTypes
  import opened Bytes
  import opened Md5Bits
  import opened Md5Spec
  import opened Md5Rounds
  import opened Md5Context

  /** The bytes of each four turned round. */
  function Swapped(s: seq<bv8>): (r: seq<bv8>)
    requires |s| % 4 == 0
    ensures |r| == |s|
  {
    seq(|s|, i requires 0 <= i < |s| => s[Mirror(i, |s|)])
  }

  /** The place across the word of index i. */
  function Mirror(i: nat, n: nat): (k: nat)
    requires n % 4 == 0 && i < n
    ensures k < n && k / 4 == i / 4 && k % 4 == 3 - i % 4
  {
    i / 4 * 4 + 3 - i % 4
  }

  lemma SwappedTwice(s: seq<bv8>)
    requires |s| % 4 == 0
    ensures Swapped(Swapped(s)) == s
  {
    forall i | 0 <= i < |s| ensures Mirror(Mirror(i, |s|), |s|) == i {
    }
    hide Mirror;
  }

  lemma SwappedOneMore(s: seq<bv8>, b: seq<bv8>)
    requires |s| % 4 == 0 && |b| == 4
    ensures Swapped(s + b) == Swapped(s) + [b[3], b[2], b[1], b[0]]
  {
    var n := |s|;
    forall i | 0 <= i < n + 4 ensures Swapped(s + b)[i] == (Swapped(s) + [b[3], b[2], b[1], b[0]])[i] {
      MirrorBehind(i, n);
      hide Mirror;
    }
  }

  lemma MirrorBehind(i: nat, n: nat)
    requires n % 4 == 0 && i < n + 4
    ensures Mirror(i, n + 4) == if i < n then Mirror(i, n) else 2 * n + 3 - i
  {
  }

  /** How many bytes MD5Memcpy copies: with a byte swap only whole words. */
  function CopiedBytes(count: nat, doByteSwap: bool): (n: nat)
    ensures n <= count
  {
    if doByteSwap then count / 4 * 4 else count
  }

  /** MD5Memcpy */
  method Copy(dest: array<bv8>, at: nat, src: array<bv8>, from: nat, count: nat, doByteSwap: bool)
    requires dest != src && at + count <= dest.Length && from + count <= src.Length
    modifies dest
    ensures var n := CopiedBytes(count, doByteSwap);
            dest[..] == old(dest[..at]) + (if doByteSwap then Swapped(src[from..from + n]) else src[from..from + n])
                        + old(dest[at + n..])
  {
    if !doByteSwap {
      CopyBytes(dest, at, src, from, count);
    } else {
      CopySwapped(dest, at, src, from, count / 4);
    }
  }

  method CopyBytes(dest: array<bv8>, at: nat, src: array<bv8>, from: nat, count: nat)
    requires dest != src && at + count <= dest.Length && from + count <= src.Length
    modifies dest
    ensures dest[..] == old(dest[..at]) + src[from..from + count] + old(dest[at + count..])
  {
    var i := 0;
    while i < count
      invariant 0 <= i <= count
      invariant dest[..] == old(dest[..at]) + src[from..from + i] + old(dest[at + i..])
    {
      dest[at + i] := src[from + i];
      i := i + 1;
    }
  }

  /** x lies in d from `at` on, and around it is what was in a. */
  ghost predicate Spliced(d: seq<bv8>, a: seq<bv8>, at: nat, x: seq<bv8>) {
    at + |x| <= |a| && d == a[..at] + x + a[at + |x|..]
  }

  lemma FourMore(d: seq<bv8>, a: seq<bv8>, at: nat, x: seq<bv8>, b: seq<bv8>)
    requires Spliced(d, a, at, x) && |b| == 4 && at + |x| + 4 <= |a|
    ensures var k := at + |x|; Spliced(d[..k] + b + d[k + 4..], a, at, x + b)
  {
    var k := at + |x|;
    assert d[..k] == a[..at] + x;
    assert d[k + 4..] == a[k + 4..];
    assert a[..at] + x + b == a[..at] + (x + b);
  }

  method PutFour(dest: array<bv8>, k: nat, b0: bv8, b1: bv8, b2: bv8, b3: bv8)
    requires k + 4 <= dest.Length
    modifies dest
    ensures dest[..] == old(dest[..k]) + [b0, b1, b2, b3] + old(dest[k + 4..])
  {
    dest[k] := b0;
    dest[k + 1] := b1;
    dest[k + 2] := b2;
    dest[k + 3] := b3;
  }

  /** One more word turned round behind those before it. */
  lemma SwapTurn(d: seq<bv8>, a: seq<bv8>, at: nat, m: seq<bv8>, from: nat, s: nat)
    requires from <= s <= s + 4 <= |m| && (s - from) % 4 == 0 && at + s - from + 4 <= |a| == |d|
    requires Spliced(d, a, at, Swapped(m[from..s]))
    ensures var k := at + s - from;
            Spliced(d[..k] + [m[s + 3], m[s + 2], m[s + 1], m[s]] + d[k + 4..], a, at, Swapped(m[from..s + 4]))
  {
    hide Swapped, Spliced;
    SwappedOneMore(m[from..s], m[s..s + 4]);
    assert m[from..s] + m[s..s + 4] == m[from..s + 4];
    FourMore(d, a, at, Swapped(m[from..s]), [m[s + 3], m[s + 2], m[s + 1], m[s]]);
  }

  /** The swapping branch, word by word. */
  method CopySwapped(dest: array<bv8>, at: nat, src: array<bv8>, from: nat, count: nat)
    requires dest != src && at + 4 * count <= dest.Length && from + 4 * count <= src.Length
    modifies dest
    ensures dest[..] == old(dest[..at]) + Swapped(src[from..from + 4 * count]) + old(dest[at + 4 * count..])
  {
    hide *;
    ghost var a, m := dest[..], src[..];
    NoBytes(a, at, m[from..from]);
    var i := 0;
    while i < count
      invariant 0 <= i <= count
      invariant Spliced(dest[..], a, at, Swapped(m[from..from + 4 * i]))
    {
      var d, s := at + 4 * i, from + 4 * i;
      SwapTurn(dest[..], a, at, m, from, s);
      PutFour(dest, d, src[s + 3], src[s + 2], src[s + 1], src[s]);
      i := i + 1;
    }
    SplicedIs(dest[..], a, at, Swapped(m[from..from + 4 * count]));
  }

  lemma NoBytes(a: seq<bv8>, at: nat, x: seq<bv8>)
    requires at <= |a| && x == []
    ensures Spliced(a, a, at, Swapped(x))
  {
  }

  lemma SplicedIs(d: seq<bv8>, a: seq<bv8>, at: nat, x: seq<bv8>)
    requires Spliced(d, a, at, x)
    ensures at + |x| <= |a| && d == a[..at] + x + a[at + |x|..]
  {
  }

  /** MD5Memset */
  method Set(dest: array<bv8>, at: nat, ch: bv8, count: nat)
    requires at + count <= dest.Length
    modifies dest
    ensures dest[..] == old(dest[..at]) + seq(count, _ => ch) + old(dest[at + count..])
  {
    var i := 0;
    while i < count
      invariant 0 <= i <= count
      invariant dest[..] == old(dest[..at]) + seq(i, _ => ch) + old(dest[at + i..])
    {
      dest[at + i] := ch;
      i := i + 1;
    }
  }

  class Context {
    const buffer: array<bv32>
    const bits: array<u32>
    const intermediate: array<bv8>

    constructor ()
      ensures Shape() && fresh(buffer) && fresh(bits) && fresh(intermediate)
    {
      buffer, bits, intermediate := new bv32[4], new u32[2], new bv8[64];
    }

    ghost predicate Shape() {
      && buffer.Length == 4 && bits.Length == 2 && intermediate.Length == 64
      && (buffer as object) != bits && (buffer as object) != intermediate && (bits as object) != intermediate
    }

    predicate Owns(o: object) { o == buffer || o == bits || o == intermediate }

    ghost predicate Valid()
      reads bits
    {
      Shape() && bits[0] % 8 == 0
    }

    function HashState(): State
      requires Shape()
      reads buffer
    {
      State(buffer[0], buffer[1], buffer[2], buffer[3])
    }

    function Value(): (c: Ctx)
      requires Shape()
      reads buffer, bits, intermediate
    {
      Ctx(HashState(), bits[0] + bits[1] * TWO32, intermediate[..])
    }

    /** MD5Init */
    method Init()
      requires Shape()
      modifies buffer, bits
      ensures Valid() && Value() == Start(old(intermediate[..]))
    {
      buffer[0] := 0x67452301;
      buffer[1] := 0xefcdab89;
      buffer[2] := 0x98badcfe;
      buffer[3] := 0x10325476;
      bits[0], bits[1] := 0, 0;
    }

    /** MD5Transform */
    method Transform()
      requires Shape()
      modifies buffer
      ensures HashState() == Compress(old(HashState()), intermediate[..])
    {
      hide Add, Steps;
      ghost var s := HashState();
      var x := WordsOf(intermediate[..]);
      var a, b, c, d := buffer[0], buffer[1], buffer[2], buffer[3];
      NoSteps(s, x);
      a, b, c, d := RoundOne(a, b, c, d, x, s);
      a, b, c, d := RoundTwo(a, b, c, d, x, s);
      a, b, c, d := RoundThree(a, b, c, d, x, s);
      a, b, c, d := RoundFour(a, b, c, d, x, s);
      buffer[0] := Add(buffer[0], a);
      buffer[1] := Add(buffer[1], b);
      buffer[2] := Add(buffer[2], c);
      buffer[3] := Add(buffer[3], d);
    }

    /** The 64-bit count in two words: the carry is seen from the wrapped sum. */
    method AddLength(len: u32) returns (fill: nat)
      requires Valid()
      modifies bits
      ensures Valid() && bits[0] + bits[1] * TWO32 == old(bits[0] + bits[1] * TWO32 + 8 * len) % TWO64
      ensures fill == old(Value()).Fill()
    {
      var temp: int, high: int, length: int := bits[0], bits[1], len;
      CarryLaw(temp, high, len);
      FillOfLow(temp, high);
      hide Wrap32;
      bits[0] := Wrap32(temp + Wrap32(length * 8));
      if bits[0] < temp {
        high := Wrap32(high + 1);
      }
      bits[1] := Wrap32(high + length / 0x2000_0000);
      fill := temp / 8 % 64;
    }

    /** A copy that fills the intermediate block up, and the transform. */
    method Absorb(input: array<bv8>, at: nat, fill: nat, n: nat)
      requires Shape() && !Owns(input) && fill + n == 64 && at + n <= input.Length
      modifies buffer, intermediate
      ensures intermediate[..] == Overwrite(old(intermediate[..]), fill, input[at..at + n])
      ensures HashState() == Compress(old(HashState()), intermediate[..])
    {
      hide Compress;
      Copy(intermediate, fill, input, at, n, false);
      Transform();
    }

    /** The part of a context that MD5Update changes as it goes. */
    ghost predicate Holds(c: Ctx)
      requires Shape()
      reads buffer, intermediate
    {
      HashState() == c.hash && intermediate[..] == c.data
    }

    /** Input that fills the intermediate block up is copied and hashed. */
    method FillUp(input: array<bv8>, at: nat, fill: nat, n: nat, ghost c: Ctx)
      requires Shape() && !Owns(input) && fill + n == 64 && at + n <= input.Length
      requires Fed(c, input[..at], fill)
      modifies buffer, intermediate
      ensures Fed(c, input[..at + n], 0)
    {
      hide Compress, Feed, Overwrite, Ctx.Fill;
      ghost var m := input[..];
      FeedBits(c, m[..at]);
      Absorb(input, at, fill, n);
      FeedToEnd(Feed(c, m[..at]), m[at..at + n]);
      FeedBits(Feed(c, m[..at]), m[at..at + n]);
      FeedSlice(c, m, at, at + n);
    }

    /** Input that does not fill the block is kept for later. */
    method Keep(input: array<bv8>, at: nat, fill: nat, n: nat, ghost c: Ctx)
      requires Shape() && !Owns(input) && fill + n < 64 && at + n <= input.Length
      requires Fed(c, input[..at], fill)
      modifies intermediate
      ensures Holds(Feed(c, input[..at + n]))
    {
      hide Compress, Feed, Overwrite, Ctx.Fill;
      ghost var m := input[..];
      FeedBits(c, m[..at]);
      Copy(intermediate, fill, input, at, n, false);
      FeedInside(Feed(c, m[..at]), m[at..at + n]);
      Overwritten(Feed(c, m[..at]).data, fill, m[at..at + n]);
      FeedSlice(c, m, at, at + n);
    }

    /** The context has taken in the bytes of m after c, and waits with `fill` bytes. */
    ghost predicate Fed(c: Ctx, m: seq<bv8>, fill: nat)
      requires Shape()
      reads buffer, intermediate
    {
      c.Valid() && Holds(Feed(c, m)) && Feed(c, m).Fill() == fill
    }

    /** MD5Update */
    method Update(input: array<bv8>, len: u32)
      requires Valid() && len <= input.Length && !Owns(input)
      modifies buffer, bits, intermediate
      ensures Valid() && Value() == Feed(old(Value()), input[..len])
    {
      hide Compress, Feed, Overwrite, Ctx.Fill;
      ghost var c := Value();
      CountsFit(bits[0], bits[1]);
      FeedBits(c, input[..len]);
      FeedNothing(c);
      assert input[..0] == [];
      var temp := AddLength(len);
      ghost var count := bits[..];
      var at: nat, left: nat := 0, len;
      if temp != 0 {
        var room := 64 - temp;
        if left < room {
          Keep(input, at, temp, left, c);
          return;
        }
        FillUp(input, at, temp, room, c);
        at, left := at + room, left - room;
      }
      while left >= 64
        invariant at + left == len && Fed(c, input[..at], 0) && bits[..] == count
      {
        FillUp(input, at, 0, 64, c);
        at, left := at + 64, left - 64;
      }
      Keep(input, at, 0, left, c);
    }

    /** A word of the intermediate block, the low-order byte first. */
    method PutWord(i: nat, w: u32)
      requires Shape() && i < 16
      modifies intermediate
      ensures intermediate[..] == old(intermediate[..4 * i]) + WordBytes(w) + old(intermediate[4 * i + 4..])
    {
      hide WordBytes;
      var b := WordBytes(w);
      intermediate[4 * i], intermediate[4 * i + 1] := b[0], b[1];
      intermediate[4 * i + 2], intermediate[4 * i + 3] := b[2], b[3];
    }

    /** The last two words of the intermediate block: the count. */
    method StoreCount()
      requires Valid()
      modifies intermediate
      ensures intermediate[..] == old(intermediate[..56]) + Count(Value().bits)
    {
      hide WordBytes, Count;
      CountBytes(bits[0], bits[1]);
      PutWord(14, bits[0]);
      PutWord(15, bits[1]);
    }

    /** The first part of the padding, up to the place of the count, through an
        extra block when the count does not fit behind the one bit. */
    method PadToCount()
      requires Valid()
      modifies buffer, intermediate
      ensures var c := old(Value());
              if c.Fill() > 55 then
                && HashState() == Compress(c.hash, Overwrite(c.data, c.Fill(), Tail(c)))
                && intermediate[..56] == seq(56, _ => 0)
              else
                && HashState() == c.hash
                && intermediate[..56] == c.data[..c.Fill()] + [0x80] + seq(55 - c.Fill(), _ => 0)
    {
      hide Compress;
      FillOfLow(bits[0], bits[1]);
      var count := bits[0] / 8 % 64;
      intermediate[count] := 0x80;
      var p := count + 1;
      count := 64 - 1 - count;
      if count < 8 {
        Set(intermediate, p, 0, count);
        Overwritten(old(intermediate[..]), p - 1, Tail(old(Value())));
        assert intermediate[..] == Overwrite(old(intermediate[..]), p - 1, Tail(old(Value())));
        Transform();
        Set(intermediate, 0, 0, 56);
      } else {
        Set(intermediate, p, 0, count - 8);
      }
    }

    /** MD5Final */
    method Final(digest: array<bv8>)
      requires Valid() && 16 <= digest.Length && !Owns(digest)
      modifies buffer, intermediate, digest
      ensures digest[..16] == Finished(old(Value())) && digest[16..] == old(digest[16..])
    {
      hide Compress, Count, Output, Feed;
      ghost var c := Value();
      CountsFit(bits[0], bits[1]);
      PadToCount();
      StoreCount();
      if c.Fill() > 55 {
        TwoBlocks(c);
      } else {
        OneBlock(c);
        assert intermediate[..] == Overwrite(c.data, c.Fill(), PaddingOf(c));
      }
      Transform();
      CopyOut(digest);
    }

    /** The four words in memory, as the bytes of the digest. */
    method CopyOut(digest: array<bv8>)
      requires Valid() && 16 <= digest.Length && !Owns(digest)
      modifies digest
      ensures digest[..16] == Output(HashState()) && digest[16..] == old(digest[16..])
    {
      hide Output;
      forall j | 0 <= j < 16 {
        digest[j] := ByteOf(buffer[j / 4], j % 4);
      }
      WrittenOut(digest[..16], HashState());
    }
  }

  /** md5: the digest of the standard, for every input. */
  method Hashed(input: array<bv8>, len: u32, digest: array<bv8>)
    requires len <= input.Length && 16 <= digest.Length && input != digest
    modifies digest
    ensures digest[..16] == Digest(input[..len]) && digest[16..] == old(digest[16..])
  {
    hide Digest, Finished, Feed, Start;
    var context := new Context();
    context.Init();
    ghost var data := context.intermediate[..];
    context.Update(input, len);
    context.Final(digest);
    FinishedIsDigest(data, input[..len]);
  }

  /** What fills up the block when the count does not fit. */
  function Tail(c: Ctx): (p: seq<bv8>)
    ensures |p| == 64 - c.Fill()
  {
    [0x80] + seq(63 - c.Fill(), _ => 0)
  }

  lemma OneBlock(c: Ctx)
    requires c.Valid() && c.Fill() <= 55
    ensures c.Fill() + |PaddingOf(c)| == 64
    ensures Feed(c, PaddingOf(c)).hash == Compress(c.hash, Overwrite(c.data, c.Fill(), PaddingOf(c)))
  {
    hide Compress, Count;
    FeedToEnd(c, PaddingOf(c));
  }

  lemma TwoBlocks(c: Ctx)
    requires c.Valid() && c.Fill() > 55
    ensures Feed(c, PaddingOf(c)).hash ==
              Compress(Compress(c.hash, Overwrite(c.data, c.Fill(), Tail(c))), seq(56, _ => 0) + Count(c.bits))
  {
    hide Compress, Count, Feed, Overwrite;
    var p2 := seq(56, _ => 0) + Count(c.bits);
    FeedToEnd(c, Tail(c));
    FeedBits(c, Tail(c));
    FeedToEnd(Feed(c, Tail(c)), p2);
    OverwriteAll(Feed(c, Tail(c)).data, p2);
    FeedConcat(c, Tail(c), p2);
    assert Tail(c) + p2 == PaddingOf(c);
  }

  lemma FeedNothing(c: Ctx)
    ensures Feed(c, []) == c
  {
  }

  lemma FeedSlice(c: Ctx, m: seq<bv8>, i: nat, j: nat)
    requires i <= j <= |m|
    ensures Feed(Feed(c, m[..i]), m[i..j]) == Feed(c, m[..j])
  {
    FeedConcat(c, m[..i], m[i..j]);
    assert m[..i] + m[i..j] == m[..j];
  }

  lemma Overwritten(d: Block, p: nat, x: seq<bv8>)
    requires p + |x| <= 64
    ensures Overwrite(d, p, x) == d[..p] + x + d[p + |x|..]
  {
  }

  lemma CountsFit(low: u32, high: u32)
    requires low % 8 == 0
    ensures low + high * TWO32 < TWO64 && (low + high * TWO32) % 8 == 0
  {
  }

  function WordBytes(w: u32): (s: seq<bv8>)
    ensures |s| == 4
  {
    [ToByte(w), ToByte(w / 0x100), ToByte(w / 0x1_0000), ToByte(w / 0x100_0000)]
  }

  lemma CountBytes(low: u32, high: u32)
    ensures Count(low + high * TWO32) == WordBytes(low) + WordBytes(high)
  {
    hide ByteValue.Byte;
    Powers();
    LowBytes(low, high);
    HighBytes(low, high);
    hide Power;
  }

  lemma Powers()
    ensures Power(0) == 1 && Power(1) == 0x100 && Power(2) == 0x1_0000 && Power(3) == 0x100_0000 && Power(4) == TWO32
    ensures Power(5) == TWO32 * 0x100 && Power(6) == TWO32 * 0x1_0000 && Power(7) == TWO32 * 0x100_0000
  {
    assert Power(2) == 256 * Power(1);
    assert Power(4) == 256 * Power(3);
    assert Power(6) == 256 * Power(5);
  }

  lemma LowBytes(low: u32, high: u32)
    ensures var n := low + high * TWO32;
            n % 256 == low % 256 && n / 0x100 % 256 == low / 0x100 % 256
            && n / 0x1_0000 % 256 == low / 0x1_0000 % 256 && n / 0x100_0000 % 256 == low / 0x100_0000 % 256
  {
    LowByte(low, high, 1, 0x100_0000);
    LowByte(low, high, 0x100, 0x1_0000);
    LowByte(low, high, 0x1_0000, 0x100);
    LowByte(low, high, 0x100_0000, 1);
  }

  /** Dividing by less than a word keeps the low-order byte of the quotient. */
  lemma LowByte(low: u32, high: u32, d: nat, e: nat)
    requires d > 0 && d * e * 256 == TWO32
    ensures (low + high * TWO32) / d % 256 == low / d % 256
  {
    var y := high * e;
    Regrouped(high, d, e);
    DivBounds(low, d);
    Distribute(d, low / d, y * 256);
    QuotientIs(low + high * TWO32, d, low / d + y * 256);
  }

  lemma Regrouped(high: nat, d: nat, e: nat)
    ensures high * (d * e * 256) == d * (high * e * 256)
  {
  }

  lemma HighBytes(low: u32, high: u32)
    ensures var n := low + high * TWO32;
            n / TWO32 == high && n / (TWO32 * 0x100) == high / 0x100
            && n / (TWO32 * 0x1_0000) == high / 0x1_0000 && n / (TWO32 * 0x100_0000) == high / 0x100_0000
  {
  }

  lemma WrittenOut(d: seq<bv8>, s: State)
    requires |d| == 16 && forall j :: 0 <= j < 16 ==> d[j] == ByteOf([s.a, s.b, s.c, s.d][j / 4], j % 4)
    ensures d == Output(s)
  {
  }

  lemma NoSteps(s: State, x: Words)
    ensures Steps(s, x, 0) == s
  {
  }

  lemma CarryLaw(low: u32, high: u32, len: u32)
    requires low % 8 == 0
    ensures var l := Wrap32(low + Wrap32(len * 8));
            var h := if l < low then Wrap32(high + 1) else high;
            && l % 8 == 0
            && l + Wrap32(h + len / 0x2000_0000) * TWO32 == (low + high * TWO32 + 8 * len) % TWO64
  {
    var top, rest := len / 0x2000_0000, len % 0x2000_0000;
    assert Wrap32(len * 8) == rest * 8;
    var carry := if low + rest * 8 >= TWO32 then 1 else 0;
    WrapOnce(low + rest * 8);
    WrapTwice(high + 1, top);
    hide Wrap32;
    HighWord(low + rest * 8 - carry * TWO32, high + carry + top);
  }

  lemma WrapOnce(x: nat)
    requires x < 2 * TWO32
    ensures Wrap32(x) == if x >= TWO32 then x - TWO32 else x
  {
  }

  lemma WrapTwice(x: nat, y: nat)
    ensures Wrap32(Wrap32(x) + y) == Wrap32(x + y)
  {
  }

  lemma HighWord(low: u32, sum: nat)
    ensures low + Wrap32(sum) * TWO32 == (low + sum * TWO32) % TWO64
  {
  }

  lemma FillOfLow(low: u32, high: u32)
    ensures low / 8 % 64 == (low + high * TWO32) / 8 % 64
  {
    assert (low + high * TWO32) / 8 == low / 8 + high * 0x2000_0000;
    assert low / 8 + high * 0x2000_0000 == low / 8 + 64 * (high * 0x80_0000);
  }
}
