/** The clock dividers of the baseband chain and their register fields. */
module Dividers {
  import opened CTypes
  import opened Bytes
  import opened Registers
  import Kernels

  // enum ad9361_clocks
  const BB_REFCLK := 0
  const RX_REFCLK := 1
  const TX_REFCLK := 2
  const BBPLL_CLK := 3
  const ADC_CLK := 4
  const R2_CLK := 5
  const R1_CLK := 6
  const CLKRF_CLK := 7
  const RX_SAMPL_CLK := 8
  const DAC_CLK := 9
  const T2_CLK := 10
  const T1_CLK := 11
  const CLKTF_CLK := 12
  const TX_SAMPL_CLK := 13
  const RX_RFPLL_INT := 14
  const TX_RFPLL_INT := 15
  const RX_RFPLL_DUMMY := 16
  const TX_RFPLL_DUMMY := 17
  const RX_RFPLL := 18
  const TX_RFPLL := 19
  const NUM_CLKS := 20

  type Factor = i: int | ADC_CLK <= i <= TX_SAMPL_CLK witness ADC_CLK

  /** The clock each divider counts down. */
  function Parent(i: Factor): nat {
    if i == DAC_CLK then ADC_CLK else i - 1
  }

  function FieldOf(i: Factor): Field {
    if i == ADC_CLK then Field(0x00A, 0x07, 0)
    else if i == DAC_CLK then Field(0x00A, 0x08, 3)
    else
      var reg := if i <= RX_SAMPL_CLK then 0x003 else 0x002;
      var stage := if i <= RX_SAMPL_CLK then i else i - (T2_CLK - R2_CLK);
      if stage == R2_CLK then Field(reg, 0x30, 4)
      else if stage == R1_CLK then Field(reg, 0x08, 3)
      else if stage == CLKRF_CLK then Field(reg, 0x04, 2)
      else Field(reg, 0x03, 0)
  }

  predicate IsSample(i: Factor) { i == RX_SAMPL_CLK || i == TX_SAMPL_CLK }

  /** The largest value the field of a clock can hold. */
  function Limit(i: Factor): bv8 {
    if i == ADC_CLK then 7
    else if i == R2_CLK || i == T2_CLK || IsSample(i) then 3
    else 1
  }

  /** ad9361_get_clk_scaler: the divider a field value stands for. */
  function Decode(i: Factor, code: nat): (d: nat)
    ensures d >= 1
  {
    if i == ADC_CLK then Pow2(code)
    else if IsSample(i) then (if code == 0 then 1 else Pow2(code - 1))
    else code + 1
  }

  /** ad9361_set_clk_scaler for a multiplier of one: the field value of a divider. */
  function Encode(i: Factor, div: u32, bypassFir: bool): Result<nat> {
    if i == ADC_CLK then
      var tmp := Log2(div % 256);
      if tmp > 6 || tmp < 1 then Err else Ok(tmp)
    else if IsSample(i) then
      if div > 4 || div < 1 || div == 3 then Err
      else if bypassFir then Ok(0)
      else Ok(Log2(div) + 1)
    else
      var top := if i == R2_CLK || i == T2_CLK then 3 else 2;
      if div > top || div < 1 then Err else Ok(div - 1)
  }

  /** ilog2 on small operands, which is zero for zero. */
  function Log2(n: nat): nat { if n == 0 then 0 else Kernels.FloorLog2(n) }

  function Code(i: Factor, r: Regs): nat {
    ReadF(r, FieldOf(i)) as int
  }

  function Store(i: Factor, r: Regs, code: nat): Regs {
    WriteF(r, FieldOf(i), ToByte(code))
  }

  function DivOf(i: Factor, r: Regs): (d: nat)
    ensures d >= 1
  {
    Decode(i, Code(i, r))
  }

  lemma Width(i: Factor)
    ensures FieldOf(i).mask >> FieldOf(i).off == Limit(i)
  {
  }

  lemma FieldsDisjoint(i: Factor, j: Factor)
    requires i != j
    ensures FieldOf(i).reg < SIZE && FieldOf(j).reg < SIZE && FieldOf(i).off < 8 && FieldOf(j).off < 8
    ensures Disjoint(FieldOf(i), FieldOf(j))
  {
  }

  /** The field positions are the ones the SPI layer finds from the masks. */
  lemma FieldsValid(i: Factor)
    ensures FieldOf(i).Valid()
  {
    FirstBits();
    hide Kernels.FindFirstBit;
  }

  lemma FirstBits()
    ensures Kernels.FindFirstBit(0x07) == 0 && Kernels.FindFirstBit(0x08) == 3 && Kernels.FindFirstBit(0x30) == 4
    ensures Kernels.FindFirstBit(0x04) == 2 && Kernels.FindFirstBit(0x03) == 0
  {
  }

  lemma DividersBounded(i: Factor, r: Regs)
    ensures DivOf(i, r) <= 128
  {
    Width(i);
    var code := Code(i, r);
    ExtractedBound(r[FieldOf(i).reg], FieldOf(i).mask, FieldOf(i).off, Limit(i));
    assert code <= 7;
    hide ReadF, FieldOf;
    PowerSteps(code);
    PowerSteps(if code == 0 then 0 else code - 1);
  }

  lemma LimitIs(i: Factor)
    ensures Limit(i) == 7 || Limit(i) == 3 || Limit(i) == 1
    ensures FieldOf(i).reg < SIZE && FieldOf(i).off < 8
  {
  }

  /** A stored field value is the one read back, and the fields of the other
      clocks keep theirs. */
  lemma StoreLaw(i: Factor, r: Regs, code: nat, j: Factor)
    requires code <= Limit(i) as int
    ensures Code(j, Store(i, r, code)) == if j == i then code else Code(j, r)
  {
    hide ToByte, WriteF, ReadF, Limit, FieldOf;
    LimitIs(i);
    LowCode(code, Limit(i));
    if j == i {
      Width(i);
      WriteThenRead(r, FieldOf(i), ToByte(code));
    } else {
      FieldsDisjoint(i, j);
      WriteElsewhere(r, FieldOf(i), ToByte(code), FieldOf(j));
    }
  }

  /** The dividers a clock can be given. */
  predicate Encodable(i: Factor, d: nat, bypassFir: bool) {
    if i == ADC_CLK then d == 2 || d == 4 || d == 8 || d == 16 || d == 32 || d == 64
    else if IsSample(i) then d == 1 || (!bypassFir && (d == 2 || d == 4))
    else 1 <= d <= (if i == R2_CLK || i == T2_CLK then 3 else 2)
  }

  lemma CodeFits(i: Factor, d: nat, bypassFir: bool)
    requires Encodable(i, d, bypassFir)
    ensures Encode(i, d, bypassFir).Ok? && Encode(i, d, bypassFir).value <= Limit(i) as int
    ensures Decode(i, Encode(i, d, bypassFir).value) == d
  {
    hide Log2, Pow2;
    LimitValue(i);
    hide Limit;
    if i == ADC_CLK || IsSample(i) {
      LogOf(d);
    }
  }

  /** They are exactly those that are accepted and come back: other dividers are
      refused, or rounded down to a power of two, or cut off to eight bits. */
  lemma EncodableExactly(i: Factor, d: u32, bypassFir: bool)
    ensures Encodable(i, d, bypassFir) <==>
              Encode(i, d, bypassFir).Ok? && Decode(i, Encode(i, d, bypassFir).value) == d
  {
    hide Log2;
    if Encodable(i, d, bypassFir) {
      CodeFits(i, d, bypassFir);
    } else if i == ADC_CLK {
      SmallPowers(Log2(d % 256));
    }
  }

  lemma SmallPowers(n: nat)
    ensures 1 <= n <= 6 ==>
              Pow2(n) == 2 || Pow2(n) == 4 || Pow2(n) == 8 || Pow2(n) == 16 || Pow2(n) == 32 || Pow2(n) == 64
  {
    assert Pow2(3) == 8 && Pow2(6) == 64;
  }

  /** A field value is programmed back from its own divider except where two values
      share one divider, or the divider is not offered. */
  lemma GetThenSet(i: Factor, code: nat, bypassFir: bool)
    requires code <= Limit(i) as int
    ensures Decode(i, code) <= 128
    ensures Encode(i, Decode(i, code), bypassFir) == Ok(code) <==>
              if i == ADC_CLK then 1 <= code <= 6
              else if IsSample(i) then (code == 0) == bypassFir && (bypassFir || code <= 3)
              else code < 3
  {
    LimitValue(i);
    hide Limit, Log2;
    if i == ADC_CLK {
      PowersHaveLogs(code);
    } else if IsSample(i) {
      PowersHaveLogs(if code == 0 then 0 else code - 1);
    }
    hide Pow2;
  }

  lemma PowersHaveLogs(n: nat)
    requires n <= 7
    ensures 1 <= Pow2(n) <= 128 && Log2(Pow2(n)) == n && (n == 0 ==> Pow2(n) == 1) && (n == 1 ==> Pow2(n) == 2)
    ensures (n == 2 ==> Pow2(n) == 4) && (n > 2 ==> Pow2(n) >= 8)
  {
    hide Kernels.FloorLog2;
    assert Pow2(3) == 8 && Pow2(6) == 64 && Pow2(7) == 128;
    LogOfPower(n);
    PowerSteps(n);
  }

  lemma {:induction false} LogOfPower(n: nat)
    ensures Log2(Pow2(n)) == n
  {
    if n > 0 {
      LogOfPower(n - 1);
    }
  }

  lemma PowerSteps(n: nat)
    requires n <= 7
    ensures Pow2(n) <= 128 && (n > 2 ==> Pow2(n) >= 8)
  {
    assert Pow2(3) == 8 && Pow2(4) == 16 && Pow2(5) == 32 && Pow2(6) == 64 && Pow2(7) == 128;
  }

  lemma LimitValue(i: Factor)
    ensures Limit(i) as int == if i == ADC_CLK then 7 else if i == R2_CLK || i == T2_CLK || IsSample(i) then 3 else 1
  {
  }

  lemma LogOf(d: nat)
    requires d == 1 || d == 2 || d == 4 || d == 8 || d == 16 || d == 32 || d == 64
    ensures Log2(d) <= 6 && Pow2(Log2(d)) == d && (d <= 4 ==> Log2(d) <= 2) && (d >= 2 ==> Log2(d) >= 1)
  {
    var n := if d == 1 then 0 else if d == 2 then 1 else if d == 4 then 2 else if d == 8 then 3
             else if d == 16 then 4 else if d == 32 then 5 else 6;
    assert Pow2(3) == 8 && Pow2(4) == 16 && Pow2(5) == 32 && Pow2(6) == 64;
    assert Pow2(n) == d;
    LogOfPower(n);
  }

  /** Programming an encodable divider makes it the divider in force, and no
      other clock of the chain sees a difference. */
  lemma SetThenGet(i: Factor, r: Regs, d: nat, bypassFir: bool, j: Factor)
    requires Encodable(i, d, bypassFir)
    ensures Encode(i, d, bypassFir).Ok?
    ensures DivOf(j, Store(i, r, Encode(i, d, bypassFir).value)) == if j == i then d else DivOf(j, r)
  {
    CodeFits(i, d, bypassFir);
    StoreLaw(i, r, Encode(i, d, bypassFir).value, j);
  }

  // ---- the layout of the registers, as numbers ----

  lemma Shifted2(b: bv8)
    ensures (b >> 2) as int == b as int / 4
  {
  }

  lemma Shifted3(b: bv8)
    ensures (b >> 3) as int == b as int / 8
  {
  }

  lemma Shifted4(b: bv8)
    ensures (b >> 4) as int == b as int / 16
  {
  }

  lemma FieldsAreShifts(b: bv8)
    ensures Extracted(b, 0x03, 0) == b & 3 && Extracted(b, 0x07, 0) == b & 7
    ensures Extracted(b, 0x04, 2) == (b >> 2) & 1 && Extracted(b, 0x08, 3) == (b >> 3) & 1
    ensures Extracted(b, 0x30, 4) == (b >> 4) & 3
  {
  }

  lemma FieldsAsNumbers(b: bv8)
    ensures Extracted(b, 0x03, 0) as int == FromByte(b) % 4 && Extracted(b, 0x07, 0) as int == FromByte(b) % 8
    ensures Extracted(b, 0x04, 2) as int == FromByte(b) / 4 % 2 && Extracted(b, 0x08, 3) as int == FromByte(b) / 8 % 2
    ensures Extracted(b, 0x30, 4) as int == FromByte(b) / 16 % 4
  {
    FieldsAreShifts(b);
    hide Extracted;
    LowTwoBits(b);
    LowThreeBits(b);
    Shifted2(b);
    LowBit(b >> 2);
    Shifted3(b);
    LowBit(b >> 3);
    Shifted4(b);
    LowTwoBits(b >> 4);
  }

  /** The divider of a sample clock: none, or a FIR factor of 1, 2 or 4. */
  function FirDivider(code: nat): nat { if code == 0 then 1 else Pow2(code - 1) }

  /** The enable register of a path holds, from its highest field down, the third-band
      and the two half-band dividers less one, and the FIR code; one register above
      them, the exponent of the BBPLL divider is below the DAC divider less one. */
  lemma RegisterLayout(r: Regs)
    ensures var rx, tx, bb := FromByte(r[0x003]), FromByte(r[0x002]), FromByte(r[0x00A]);
            && DivOf(R2_CLK, r) == rx / 16 % 4 + 1 && DivOf(T2_CLK, r) == tx / 16 % 4 + 1
            && DivOf(R1_CLK, r) == rx / 8 % 2 + 1 && DivOf(T1_CLK, r) == tx / 8 % 2 + 1
            && DivOf(CLKRF_CLK, r) == rx / 4 % 2 + 1 && DivOf(CLKTF_CLK, r) == tx / 4 % 2 + 1
            && DivOf(RX_SAMPL_CLK, r) == FirDivider(rx % 4) && DivOf(TX_SAMPL_CLK, r) == FirDivider(tx % 4)
            && DivOf(ADC_CLK, r) == Pow2(bb % 8) && DivOf(DAC_CLK, r) == bb / 8 % 2 + 1
  {
    FieldsAsNumbers(r[0x003]);
    FieldsAsNumbers(r[0x002]);
    FieldsAsNumbers(r[0x00A]);
    hide Extracted, FromByte, Pow2;
  }
}
