/** Numbers below 256 and bytes: counting up in both worlds. */
module ByteValue {
  function Byte(n: nat): bv8 {
    if n == 0 then 0 else Byte(n - 1) + 1
  }

  lemma {:induction false} ByteIs(n: nat)
    requires n < 256
    ensures Byte(n) as int == n
  {
    if n > 0 {
      ByteIs(n - 1);
      BelowTop(Byte(n - 1));
      Successor(Byte(n - 1));
    }
  }

  lemma Successor(b: bv8)
    requires b < 255
    ensures (b + 1) as int == b as int + 1
  {
  }

  lemma BelowTop(b: bv8)
    ensures b as int < 255 ==> b < 255
  {
  }
}

/** Bytes as bit-vectors and as numbers, and the mask arithmetic of bit fields. */
module Bytes {
  import opened ByteValue

  function ToByte(x: int): bv8 { Byte(x % 256) }

  function FromByte(b: bv8): (x: int)
    ensures 0 <= x < 256
  {
    b as int
  }

  lemma ByteRoundTrip(x: int)
    ensures FromByte(ToByte(x)) == x % 256
  {
    ByteIs(x % 256);
  }

  // ---- bit fields ----

  function Extracted(b: bv8, mask: bv8, off: bv8): bv8
    requires off < 8
  {
    (b & mask) >> off
  }

  function Merged(b: bv8, mask: bv8, off: bv8, val: bv8): bv8
    requires off < 8
  {
    (b & !mask) | ((val << off) & mask)
  }

  lemma MergedOwnField(b: bv8, mask: bv8, off: bv8, val: bv8)
    requires off < 8
    ensures Extracted(Merged(b, mask, off, val), mask, off) == val & (mask >> off)
  {
  }

  lemma MergedOtherBits(b: bv8, mask: bv8, x: bv8, other: bv8)
    requires mask & other == 0
    ensures ((b & !mask) | (x & mask)) & other == b & other
  {
  }

  lemma ExtractedBound(b: bv8, mask: bv8, off: bv8, limit: bv8)
    requires off < 8 && mask >> off == limit && limit <= 7
    ensures Extracted(b, mask, off) <= limit
  {
  }

  // ---- low bits as remainders ----

  function Low3(b: bv8): (x: nat)
    ensures x < 8
  {
    (b & 0x07) as int
  }

  function Low4(b: bv8): (x: nat)
    ensures x < 16
  {
    (b & 0x0F) as int
  }

  function Low7(b: bv8): (x: nat)
    ensures x < 128
  {
    (b & 0x7F) as int
  }

  function ClearTop(b: bv8): bv8 { b & 0x7F }

  /** The low three bits of v below the upper five bits of `kept`. */
  function KeepUpper(v: bv8, kept: bv8): bv8 { (v & 0x07) | (!0x07 & kept) }

  lemma KeepUpperLaw(v: bv8, kept: bv8)
    ensures Low3(KeepUpper(v, kept)) == FromByte(v) % 8
    ensures KeepUpper(v, kept) & 0xF8 == kept & 0xF8
  {
  }

  lemma ClearTopLaw(b: bv8)
    ensures Low7(ClearTop(b)) == FromByte(b) % 128
    ensures ClearTop(b) & 0x80 == 0
  {
  }

  lemma LowSeven(x: int)
    requires 0 <= x < 128
    ensures Low7(ToByte(x)) == x
  {
    hide Byte, Low7;
    ByteIs(x);
    LowSevenBits(Byte(x));
  }

  lemma LowSevenBits(b: bv8)
    ensures Low7(b) == b as int % 128
  {
  }

  lemma LowNibble(x: int)
    requires 0 <= x < 16
    ensures Low4(ToByte(x)) == x
  {
    hide Byte, Low4;
    ByteIs(x);
    LowFourBits(Byte(x));
  }

  lemma LowFourBits(b: bv8)
    ensures Low4(b) == b as int % 16
  {
  }

  lemma LowOfPair(x: bv8, y: bv8)
    requires y & 0x0F == y
    ensures Low4((x << 4) | y) == FromByte(y)
  {
  }

  lemma LowCode(code: int, limit: bv8)
    requires limit == 7 || limit == 3 || limit == 1
    requires 0 <= code <= limit as int
    ensures (ToByte(code) & limit) as int == code
  {
    hide Byte;
    ByteIs(code);
    var b := Byte(code);
    if limit == 7 {
      LowThreeBits(b);
    } else if limit == 3 {
      LowTwoBits(b);
    } else {
      LowBit(b);
    }
  }

  lemma LowThreeBits(b: bv8)
    ensures (b & 7) as int == b as int % 8
  {
  }

  lemma LowTwoBits(b: bv8)
    ensures (b & 3) as int == b as int % 4
  {
  }

  lemma LowBit(b: bv8)
    ensures (b & 1) as int == b as int % 2
  {
  }
  // ---- whole registers made of small fields ----

  function Nibble(x: bv8): bv8 { x & 0x0F }

  function Nibbles(x: bv8, y: bv8): bv8 { ((x & 0x0F) << 4) | (y & 0x0F) }

  function OutputByte(level: bv8): bv8 { (level & 0x0F) | 0x40 }

  function TuneByte(offset: bv8): bv8 { (offset & 0x0F) << 3 }

  function BiasByte(ref: bv8, tcf: bv8): bv8 { (ref & 0x07) | ((tcf & 0x03) << 3) }

  lemma NibbleLaw(b: bv8, x: bv8)
    ensures Extracted(Merged(b, 0xFF, 0, Nibble(x)), 0x0F, 0) == Nibble(x)
    ensures Extracted(Merged(b, 0x0F, 0, x), 0x0F, 0) == Nibble(x)
    ensures Extracted(Merged(b, 0xFF, 0, OutputByte(x)), 0x0F, 0) == Nibble(x)
    ensures Extracted(Merged(b, 0xFF, 0, TuneByte(x)), 0x78, 3) == Nibble(x)
  {
  }

  lemma NibblesLaw(b: bv8, x: bv8, y: bv8)
    ensures Extracted(Merged(b, 0xFF, 0, Nibbles(x, y)), 0xF0, 4) == Nibble(x)
    ensures Extracted(Merged(b, 0xFF, 0, Nibbles(x, y)), 0x0F, 0) == Nibble(y)
  {
  }

  lemma BiasLaw(b: bv8, ref: bv8, tcf: bv8)
    ensures Extracted(Merged(b, 0xFF, 0, BiasByte(ref, tcf)), 0x07, 0) == ref & 0x07
    ensures Extracted(Merged(b, 0xFF, 0, BiasByte(ref, tcf)), 0x18, 3) == tcf & 0x03
  {
  }

  lemma SevenLaw(b: bv8)
    ensures Extracted(Merged(b, 0xFF, 0, 0x70), 0x70, 4) == 7
  {
  }
}
