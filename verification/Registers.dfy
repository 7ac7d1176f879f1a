/** The AD9361 seen through its SPI port: a file of byte registers, bit fields
    addressed by mask, and the two fast-lock profile memories. */
module Registers {
  import opened Bytes
  import Kernels

  const SIZE := 0x400

  type Regs = r: seq<bv8> | |r| == SIZE witness seq(SIZE, _ => 0)

  /** A bit field: register, mask, and the position of the lowest mask bit. */
  datatype Field = Field(reg: nat, mask: bv8, off: bv8)
  {
    ghost predicate Valid() {
      reg < SIZE && mask != 0 && off as bv32 == Kernels.FindFirstBit(mask as bv32)
    }
  }

  /** __ad9361_spi_readf */
  function ReadF(r: Regs, f: Field): bv8
    requires f.reg < SIZE && f.off < 8
  {
    Extracted(r[f.reg], f.mask, f.off)
  }

  /** __ad9361_spi_writef */
  function WriteF(r: Regs, f: Field, val: bv8): Regs
    requires f.reg < SIZE && f.off < 8
  {
    r[f.reg := Merged(r[f.reg], f.mask, f.off, val)]
  }

  predicate Disjoint(f: Field, g: Field) { f.reg != g.reg || f.mask & g.mask == 0 }

  /** A field write is read back up to the field width. */
  lemma WriteThenRead(r: Regs, f: Field, val: bv8)
    requires f.reg < SIZE && f.off < 8
    ensures ReadF(WriteF(r, f, val), f) == val & (f.mask >> f.off)
  {
    MergedOwnField(r[f.reg], f.mask, f.off, val);
  }

  /** It leaves every bit outside the mask, and hence every disjoint field, alone. */
  lemma WriteElsewhere(r: Regs, f: Field, val: bv8, g: Field)
    requires f.reg < SIZE && f.off < 8 && g.reg < SIZE && g.off < 8 && Disjoint(f, g)
    ensures ReadF(WriteF(r, f, val), g) == ReadF(r, g)
  {
    if f.reg == g.reg {
      MergedOtherBits(r[f.reg], f.mask, val << f.off, g.mask);
    }
  }

  /** A multi-byte SPI write: the address counts down. */
  function WriteM(r: Regs, reg: nat, buf: seq<bv8>): Regs
    requires reg < SIZE && |buf| <= reg
    decreases |buf|
  {
    if buf == [] then r else WriteM(r[reg := buf[0]], reg - 1, buf[1..])
  }

  lemma {:induction false} WriteMLaw(r: Regs, reg: nat, buf: seq<bv8>, a: nat)
    requires reg < SIZE && |buf| <= reg && a < SIZE
    ensures WriteM(r, reg, buf)[a] == if reg - |buf| < a <= reg then buf[reg - a] else r[a]
    decreases |buf|
  {
    if buf != [] {
      WriteMLaw(r[reg := buf[0]], reg - 1, buf[1..], a);
    }
  }
}
