/** The cached clock tree of util.c: every clock's rate is kept in memory and
    refreshed from the registers after each change. */
module ClockTree {
  import opened CTypes
  import opened Bytes
  import opened Registers
  import opened Device
  import opened Dividers
  import Bbpll
  import Rfpll
  import LO = LocalOscillator

  datatype Config = Config(refin: u32, bypassRxFir: bool, bypassTxFir: bool, useExtRxLo: bool, useExtTxLo: bool,
                           lo: LO.Config)

  type Rates = s: seq<u32> | |s| == NUM_CLKS witness seq(NUM_CLKS, _ => 0)

  datatype Tree = Tree(lo: LO.Lo, rates: Rates, bbpllInitialized: bool)
  {
    function Regs(): Regs { lo.dev.regs }

    function WithRegs(r: Regs): Tree { this.(lo := lo.(dev := lo.dev.(regs := r))) }

    function WithRate(i: nat, rate: u32): Tree
      requires i < NUM_CLKS
    {
      this.(rates := rates[i := rate])
    }
  }

  const EINVAL32: u32 := TWO32 - 22

  // ---- reference clocks ----

  function RefCode(i: nat, r: Regs): nat {
    if i == BB_REFCLK then (r[0x045] & 0x03) as int
    else if i == RX_REFCLK then
      2 * (ReadF(r, Field(0x2AB, 0x01, 0)) as int) + ReadF(r, Field(0x2AC, 0x80, 7)) as int
    else ReadF(r, Field(0x2AC, 0x0C, 2)) as int
  }

  /** The scaler codes: x1, x1/2, x1/4, x2. */
  function RefRate(code: nat, refin: u32): u32 {
    if code == 0 then refin else if code == 1 then refin / 2 else if code == 2 then refin / 4 else Wrap32(refin * 2)
  }

  /** Multiplier and divider nearest to rate / prate. */
  function Ratio(rate: u32, prate: u32): (r: (u32, u32))
    requires rate > 0 && prate > 0
    ensures r.1 >= 1
  {
    if rate >= prate then (DivRoundClosest(rate, prate), 1)
    else
      var d := DivRoundClosest(prate, rate);
      (1, if d == 0 then 1 else d)
  }

  /** ad9361_to_refclk_scaler */
  function RefScaler(mult: u32, div: u32): Result<nat> {
    var key := (mult % 16) * 16 + div % 16;
    if key == 0x11 then Ok(0) else if key == 0x12 then Ok(1)
    else if key == 0x14 then Ok(2) else if key == 0x21 then Ok(3) else Err
  }

  function StoreRef(i: nat, r: Regs, code: nat): Regs
    requires i < 3 && code < 4
  {
    if i == BB_REFCLK then WriteF(r, Field(0x045, 0x03, 0), ToByte(code))
    else if i == RX_REFCLK then
      WriteF(WriteF(r, Field(0x2AB, 0x01, 0), ToByte(code / 2)), Field(0x2AC, 0x80, 7), ToByte(code % 2))
    else WriteF(r, Field(0x2AC, 0x0C, 2), ToByte(code))
  }

  // ---- the two steps of setting a divider clock ----

  /** ad9361_set_clk_scaler: the field value, if the ratio can be programmed. */
  function ScalerCode(c: Config, i: nat, ratio: (u32, u32)): (code: Result<nat>)
    requires i < 3 || ADC_CLK <= i <= TX_SAMPL_CLK
    ensures code.Ok? && i < 3 ==> code.value < 4
  {
    if i < 3 then RefScaler(ratio.0, ratio.1)
    else if ratio.0 != 1 then Err
    else Encode(i, ratio.1, if i <= RX_SAMPL_CLK then c.bypassRxFir else c.bypassTxFir)
  }

  /** ad9361_clk_factor_round_rate, as the unsigned value its caller keeps. */
  function RoundFactor(c: Config, i: nat, rate: u32, prate: u32): (r: u32)
    requires (i < 3 || ADC_CLK <= i <= TX_SAMPL_CLK) && rate > 0 && prate > 0
  {
    var ratio := Ratio(rate, prate);
    if ScalerCode(c, i, ratio).Err? then EINVAL32 else Wrap32((prate / ratio.1) * ratio.0)
  }

  /** ad9361_clk_factor_set_rate */
  function SetFactor(c: Config, i: nat, r: Regs, rate: u32, prate: u32): Regs
    requires (i < 3 || ADC_CLK <= i <= TX_SAMPL_CLK) && prate > 0
  {
    if rate == 0 then r
    else
      var code := ScalerCode(c, i, Ratio(rate, prate));
      if code.Err? then r else if i < 3 then StoreRef(i, r, code.value) else Store(i, r, code.value)
  }

  // ---- BBPLL registers ----

  function BbpllInteger(r: Regs): nat { FromByte(r[0x044]) }

  function BbpllFract(r: Regs): nat {
    FromByte(r[0x041]) * 0x1_0000 + FromByte(r[0x042]) * 0x100 + FromByte(r[0x043])
  }

  function ChargePump(rate: u32, parent: u32): nat
    requires parent >= 128
  {
    var tmp := (rate / 128 * 150) / (parent / 128 * 32);
    var icp := (tmp + 12) / 25 - 1;
    if icp < 1 then 1 else if icp > 64 then 64 else icp
  }

  /** The charge pump current of a code, in microamperes: 25 per step, from 25 on. */
  function PumpCurrent(icp: nat): nat { 25 * (icp + 1) }

  /** The current grows with the ratio of rate and reference: it is 150 microamperes at
      1280 MHz from 40 MHz, and between the clamps, at codes 1 and 64, it is the
      nearest step, apart from the truncation of both rates to 128 Hz and of the
      current to a microampere. */
  lemma ChargePumpIsNearest(rate: u32, parent: u32)
    requires parent >= 128
    ensures var icp, wanted, per := ChargePump(rate, parent), 150 * (rate / 128), 32 * (parent / 128);
            && 1 <= icp <= 64
            && (icp > 1 ==> per * (PumpCurrent(icp) - 12) <= wanted)
            && (icp < 64 ==> wanted < per * (PumpCurrent(icp) + 13))
  {
    var r, per := rate / 128 * 150, parent / 128 * 32;
    var tmp := r / per;
    DivBounds(r, per);
    var icp := ChargePump(rate, parent);
    var steps := (tmp + 12) / 25;
    if icp > 1 {
      MulMonotone(per, PumpCurrent(icp) - 12, tmp);
    }
    if icp < 64 {
      MulMonotone(per, tmp + 1, PumpCurrent(icp) + 13);
      assert per * (tmp + 1) == per * tmp + per;
    }
  }

  lemma ChargePumpAnchor()
    ensures PumpCurrent(ChargePump(1280000000, 40000000)) == 150
  {
    assert 1280000000 / 128 == 10000000 && 40000000 / 128 == 312500;
    assert (10000000 * 150) / (312500 * 32) == 150;
  }

  /** ad9361_bbpll_set_rate */
  function SetBbpll(r: Regs, rate: u32, parent: u32): Regs
    requires parent >= 128
  {
    var integer, fract := Bbpll.IntegerWord(rate, parent), Bbpll.FractWord(rate, parent);
    r[0x046 := ToByte(ChargePump(rate, parent))]
     [0x04A := 0x35][0x049 := 0x5B][0x048 := 0xE8]
     [0x04B := 0xE0][0x04E := 0x10]
     [0x044 := ToByte(integer)]
     [0x043 := ToByte(fract)][0x042 := ToByte(fract / 0x100)][0x041 := ToByte(fract / 0x1_0000)]
     [0x03F := 0x01][0x04C := 0x86][0x04D := 0x05]
  }

  /** The loop filter bytes lie from LOOP_FILTER_3 downwards. */
  lemma LoopFilterBytes(r: Regs, rate: u32, parent: u32, k: nat)
    requires parent >= 128 && k < 3
    ensures SetBbpll(r, rate, parent)[0x04A - k] == [0x35, 0x5B, 0xE8][k]
    ensures SetBbpll(r, rate, parent)[0x04A - k] == WriteM(r, 0x04A, [0x35, 0x5B, 0xE8])[0x04A - k]
  {
    WriteMLaw(r, 0x04A, [0x35, 0x5B, 0xE8], 0x04A - k);
    hide ToByte, ChargePump, Bbpll.IntegerWord, Bbpll.FractWord, WriteM;
  }

  // ---- recomputing rates ----

  /** The rate of a clock as its registers and its parent's cached rate give it. */
  function Recalc(c: Config, t: Tree, i: nat): u32
    requires i < NUM_CLKS
  {
    if i < 3 then RefRate(RefCode(i, t.Regs()), c.refin)
    else if i == BBPLL_CLK then
      Wrap32(Bbpll.RateOf(BbpllInteger(t.Regs()), BbpllFract(t.Regs()), t.rates[BB_REFCLK]))
    else if i <= TX_SAMPL_CLK then Quotient(t.rates[Parent(i)], DivOf(i, t.Regs()))
    else if i == RX_RFPLL_INT then LO.Reported(t.lo, false, t.rates[RX_REFCLK])
    else if i == TX_RFPLL_INT then LO.Reported(t.lo, true, t.rates[TX_REFCLK])
    else if i == RX_RFPLL_DUMMY || i == TX_RFPLL_DUMMY then t.rates[i]
    else if i == RX_RFPLL then
      if c.useExtRxLo then t.rates[RX_RFPLL_DUMMY] else LO.Reported(t.lo, false, t.rates[RX_REFCLK])
    else
      if c.useExtTxLo then t.rates[TX_RFPLL_DUMMY] else LO.Reported(t.lo, true, t.rates[TX_REFCLK])
  }

  function Quotient(x: u32, d: nat): u32
    requires d > 0
  {
    QuotientFits(x, d);
    x / d
  }

  /** Reading a fast-lock profile moves its address register. */
  function RecalcEffect(c: Config, t: Tree, i: nat): Device {
    if i == RX_RFPLL_INT || (i == RX_RFPLL && !c.useExtRxLo) then LO.AfterReport(t.lo, false)
    else if i == TX_RFPLL_INT || (i == TX_RFPLL && !c.useExtTxLo) then LO.AfterReport(t.lo, true)
    else t.lo.dev
  }

  function RefreshOne(c: Config, t: Tree, i: nat): Tree
    requires i < NUM_CLKS
  {
    t.(rates := t.rates[i := Recalc(c, t, i)], lo := t.lo.(dev := RecalcEffect(c, t, i)))
  }

  /** The refresh loops of clk_set_rate, up to clock n. */
  function Refresh(c: Config, t: Tree, n: nat): Tree
    requires n <= NUM_CLKS
  {
    if n == 0 then t else RefreshOne(c, Refresh(c, t, n - 1), n - 1)
  }

  /** Every cached rate is the one its registers and its parent's cache give. */
  predicate Coherent(c: Config, t: Tree) {
    forall i :: 0 <= i < NUM_CLKS ==> t.rates[i] == Recalc(c, t, i)
  }

  // ---- clk_set_rate ----

  /** ad9361_rfpll_int_round_rate */
  function RoundLo(rate: u32): u32 {
    if Rfpll.FromClk(rate) > 6000000000 || Rfpll.FromClk(rate) < 70000000 then EINVAL32 else rate
  }

  /** Where the C code is defined: no division by zero on the way. */
  predicate Defined(c: Config, t: Tree, source: nat, rate: u32) {
    && source < NUM_CLKS
    && (source < 3 ==> c.refin > 0 && rate > 0)
    && (source == BBPLL_CLK ==> t.rates[BB_REFCLK] >= 128)
    && (ADC_CLK <= source <= TX_SAMPL_CLK ==> rate > 0 && t.rates[Parent(source)] > 0)
    && (source >= RX_RFPLL_INT ==> t.rates[RX_REFCLK] > 0 && t.rates[TX_REFCLK] > 0)
  }

  function SetInt(c: Config, t: Tree, isTx: bool, rate: u32): Tree
    requires t.rates[RX_REFCLK] > 0 && t.rates[TX_REFCLK] > 0
  {
    t.(lo := LO.SetLo(c.lo, t.lo, isTx, rate, t.rates[if isTx then TX_REFCLK else RX_REFCLK]))
  }

  /** The switch in clk_set_rate: registers and the source's own cached rate. */
  function Apply(c: Config, t: Tree, source: nat, rate: u32): Tree
    requires Defined(c, t, source, rate)
  {
    if source < 3 then
      t.WithRegs(SetFactor(c, source, t.Regs(), RoundFactor(c, source, rate, c.refin), c.refin))
    else if source == BBPLL_CLK then
      var parent := t.rates[BB_REFCLK];
      t.WithRegs(SetBbpll(t.Regs(), Bbpll.RoundRate(rate, parent) % TWO32, parent)).(bbpllInitialized := true)
    else if source <= TX_SAMPL_CLK then
      var prate := t.rates[Parent(source)];
      t.WithRegs(SetFactor(c, source, t.Regs(), RoundFactor(c, source, rate, prate), prate))
    else if source == RX_RFPLL_INT || source == TX_RFPLL_INT then
      SetInt(c, t, source == TX_RFPLL_INT, RoundLo(rate))
    else if source == RX_RFPLL_DUMMY || source == TX_RFPLL_DUMMY then
      // the case falls through and ends with a rate of zero
      t.WithRate(source, 0)
    else
      // the RX case of ad9361_rfpll_round_rate falls through to the TX one
      var round := if c.useExtTxLo then rate else RoundLo(rate);
      if source == RX_RFPLL then
        if c.useExtRxLo then t.WithRate(RX_RFPLL_DUMMY, round) else SetInt(c, t, false, round)
      else
        if c.useExtTxLo then t.WithRate(TX_RFPLL_DUMMY, round) else SetInt(c, t, true, round)
  }

  /** clk_set_rate */
  function SetRate(c: Config, t: Tree, source: nat, rate: u32): Tree
    requires Defined(c, t, source, rate)
  {
    if t.rates[source] != rate then
      Refresh(c, OwnRate(c, Apply(c, t, source, rate), source), NUM_CLKS)
    else if source == BBPLL_CLK && !t.bbpllInitialized then
      OwnRate(c, Apply(c, t, source, rate), source)
    else t
  }

  /** The source's cached rate is recomputed at the end of its case. */
  function OwnRate(c: Config, t: Tree, source: nat): Tree
    requires source < NUM_CLKS
  {
    RefreshOne(c, t, source)
  }
}
