/** The search for a baseband clock chain that yields a sample rate. */
module ClockChain {
  import opened CTypes

  const MIN_ADC := 25000000
  const MAX_ADC := 640000000
  const MAX_DAC := 320000000
  const MAX_BBPLL := 1430000000
  const MIN_BBPLL := 715000000
  const MAX_SAMPLE_RATE := 61440000

  /** One row of the divider table: the oversampling ratio and its three stages. */
  datatype Row = Row(osr: nat, d2: nat, d1: nat, d0: nat)

  const ROWS: seq<Row> := [
    Row(12, 3, 2, 2), Row(8, 2, 2, 2), Row(6, 3, 1, 2), Row(4, 2, 2, 1),
    Row(3, 3, 1, 1), Row(2, 2, 1, 1), Row(1, 1, 1, 1)]

  /** rx_path_clks and tx_path_clks, from the BBPLL down to the sample clock. */
  type Rates = s: seq<u32> | |s| == 6 witness [0, 0, 0, 0, 0, 0]

  datatype Chain = Chain(rx: Rates, tx: Rates)

  predicate FirFactor(f: nat) { f == 1 || f == 2 || f == 4 }

  function AdcRate(clkrf: u32, i: nat): u32
    requires i < 7
  {
    Wrap32(clkrf * ROWS[i].osr)
  }

  predicate InRange(adc: u32) { MIN_ADC <= adc <= MAX_ADC }

  /** The first table row at or after i with an ADC rate in range, or 7. */
  function FirstInRange(clkrf: u32, i: nat): (r: nat)
    ensures i <= 7 ==> i <= r <= 7
    ensures i <= r < 7 ==> InRange(AdcRate(clkrf, r))
    decreases 7 - i
  {
    if i >= 7 then i
    else if InRange(AdcRate(clkrf, i)) then i
    else FirstInRange(clkrf, i + 1)
  }

  /** The TX table row that goes with RX row i; outside 0..6 there is none. */
  function TxIndex(i: nat, adc: nat, dac: nat): int
    requires adc > 0 && dac > 0
  {
    var tmp := if dac > adc then -(dac / adc) else adc / dac;
    var shift := if tmp == 1 then 0 else tmp;
    if adc <= MAX_DAC then i - shift
    else if i == 4 && tmp >= 0 then 7
    else i + (if i == 5 && tmp >= 0 then 1 else 2) - shift
  }

  /** The highest power-of-two multiple of the ADC rate the BBPLL can run at. */
  function BbpllRate(adc: nat, div: nat): nat
    decreases div
  {
    if adc * div > MAX_BBPLL && div / 2 >= 2 then BbpllRate(adc, div / 2) else adc * div
  }

  function Build(clkrf: u32, i: nat, j: nat, rxFir: nat, txFir: nat): Chain
    requires i < 7 && j < 7 && rxFir > 0 && txFir > 0
  {
    var adc := AdcRate(clkrf, i);
    var dac := if adc <= MAX_DAC then adc else adc / 2;
    var bbpll := Wrap32(BbpllRate(adc, 64));
    Chain(Path(bbpll, adc, ROWS[i], rxFir), Path(bbpll, dac, ROWS[j], txFir))
  }

  function Quot(x: u32, d: nat): u32
    requires d > 0
  {
    QuotientFits(x, d);
    x / d
  }

  function TxClk(rate: u32, txFir: nat): (r: nat)
    requires rate <= MAX_SAMPLE_RATE && FirFactor(txFir)
    ensures rate <= r <= 4 * MAX_SAMPLE_RATE
  {
    rate * txFir
  }

  function RxClk(rate: u32, rxFir: nat, rxEq2tx: bool): (r: nat)
    requires rate <= MAX_SAMPLE_RATE && FirFactor(rxFir)
    ensures rate <= r <= 8 * MAX_SAMPLE_RATE && (rate == 0 ==> r == 0)
  {
    rate * rxFir * (if rxEq2tx then 2 else 1)
  }

  predicate ClocksBounded(clkrf: nat, clktf: nat) {
    clktf <= 4 * MAX_SAMPLE_RATE && clkrf <= 8 * MAX_SAMPLE_RATE && (clktf == 0 ==> clkrf == 0)
  }

  /** One pass over the table, from row g on. */
  function Attempt(clkrf: nat, clktf: nat, g: nat, rxFir: nat, txFir: nat): Result<Chain>
    requires ClocksBounded(clkrf, clktf) && FirFactor(rxFir) && FirFactor(txFir)
  {
    var i := FirstInRange(clkrf, g);
    if i >= 7 then Err
    else
      var j := TxIndex(i, AdcRate(clkrf, i), DacRate(clktf, clkrf, i));
      if 0 <= j <= 6 then Ok(Build(clkrf, i, j, rxFir, txFir)) else Err
  }

  predicate Resets(rate: u32, gov: nat, rxFir: nat) {
    gov == 1 && Wrap32(rxFir * rate * 8) < MIN_ADC
  }

  /** What ad9361_calculate_rf_clock_chain computes. A governor of 1 is taken
      back to 0, for one attempt only, when row 1 would be too slow. */
  function Solve(rate: u32, gov: nat, rxFir: nat, txFir: nat, rxEq2tx: bool): Result<Chain>
    requires FirFactor(rxFir) && FirFactor(txFir)
    decreases if gov < 7 then 7 - gov else 0
  {
    if rate > MAX_SAMPLE_RATE then Err
    else if Resets(rate, gov, rxFir) then
      Attempt(RxClk(rate, rxFir, rxEq2tx), TxClk(rate, txFir), 0, rxFir, txFir)
    else
      var r := Attempt(RxClk(rate, rxFir, rxEq2tx), TxClk(rate, txFir), gov, rxFir, txFir);
      if r.Ok? || gov >= 7 then r else Solve(rate, gov + 1, rxFir, txFir, rxEq2tx)
  }

  /** dac_rate of row i, which cannot vanish when the ADC rate is in range. */
  function DacRate(clktf: nat, clkrf: nat, i: nat): (r: nat)
    requires i < 7 && ClocksBounded(clkrf, clktf) && InRange(AdcRate(clkrf, i))
    ensures r == clktf * ROWS[i].osr > 0
  {
    Wrap32(clktf * ROWS[i].osr)
  }

  /** The table search of ad9361_calculate_rf_clock_chain. */
  method PickRows(clkrf: u32, clktf: u32, gov: nat) returns (indexRx: int, indexTx: int, adc: u32, dac: u32)
    requires ClocksBounded(clkrf, clktf)
    ensures var i := FirstInRange(clkrf, gov);
            if i < 7 then
              && indexRx == i && adc == AdcRate(clkrf, i)
              && indexTx == TxIndex(i, adc, DacRate(clktf, clkrf, i))
              && dac == (if adc <= MAX_DAC then adc else adc / 2)
            else indexRx == -1 && indexTx == -1
  {
    indexRx, indexTx, adc, dac := -1, -1, 0, 0;
    var i := gov;
    while i < 7
      invariant gov <= i && indexRx == -1 && indexTx == -1
      invariant FirstInRange(clkrf, gov) == FirstInRange(clkrf, i)
      decreases 7 - i
    {
      adc, dac := Wrap32(clkrf * ROWS[i].osr), Wrap32(clktf * ROWS[i].osr);
      if adc <= MAX_ADC && adc >= MIN_ADC {
        assert dac == DacRate(clktf, clkrf, i);
        var tmp := if dac > adc then -(dac / adc) else adc / dac;
        indexRx := i;
        if adc <= MAX_DAC {
          indexTx := i - (if tmp == 1 then 0 else tmp);
          dac := adc;
        } else {
          dac := adc / 2;
          if i == 4 && tmp >= 0 {
            indexTx := 7;
          } else {
            indexTx := i + (if i == 5 && tmp >= 0 then 1 else 2) - (if tmp == 1 then 0 else tmp);
          }
        }
        return;
      }
      i := i + 1;
    }
  }

  /** The target BBPLL rate loop of ad9361_calculate_rf_clock_chain. */
  method TargetBbpll(adc: u32) returns (bbpll: nat)
    ensures bbpll == BbpllRate(adc, 64)
  {
    var div := 64;
    ghost var last := div;
    bbpll := adc * div;
    div := div / 2;
    while bbpll > MAX_BBPLL && div >= 2
      invariant bbpll == adc * last && div == last / 2
      invariant BbpllRate(adc, 64) == BbpllRate(adc, last)
      decreases div
    {
      last := div;
      bbpll := adc * div;
      div := div / 2;
    }
  }

  /** One pass of ad9361_calculate_rf_clock_chain: search, then fill both paths. */
  method TryFrom(clkrf: u32, clktf: u32, gov: nat, rxFir: nat, txFir: nat,
                 rxPathClks: array<u32>, txPathClks: array<u32>) returns (ok: bool)
    requires ClocksBounded(clkrf, clktf) && FirFactor(rxFir) && FirFactor(txFir)
    requires rxPathClks.Length == 6 && txPathClks.Length == 6 && rxPathClks != txPathClks
    modifies rxPathClks, txPathClks
    ensures ok == Attempt(clkrf, clktf, gov, rxFir, txFir).Ok?
    ensures ok ==> Chain(rxPathClks[..], txPathClks[..]) == Attempt(clkrf, clktf, gov, rxFir, txFir).value
    ensures !ok ==> rxPathClks[..] == old(rxPathClks[..]) && txPathClks[..] == old(txPathClks[..])
  {
    var indexRx, indexTx, adc, dac := PickRows(clkrf, clktf, gov);
    if indexTx < 0 || indexTx > 6 || indexRx < 0 || indexRx > 6 {
      return false;
    }
    var bbpll := TargetBbpll(adc);
    FillPath(rxPathClks, Wrap32(bbpll), adc, ROWS[indexRx], rxFir);
    FillPath(txPathClks, Wrap32(bbpll), dac, ROWS[indexTx], txFir);
    ok := true;
  }

  /** ad9361_calculate_rf_clock_chain */
  method CalculateRfClockChain(rate: u32, rateGov: nat, rxFir: nat, txFir: nat, rxEq2tx: bool,
                               rxPathClks: array<u32>, txPathClks: array<u32>) returns (ok: bool)
    requires FirFactor(rxFir) && FirFactor(txFir)
    requires rxPathClks.Length == 6 && txPathClks.Length == 6 && rxPathClks != txPathClks
    modifies rxPathClks, txPathClks
    ensures ok == Solve(rate, rateGov, rxFir, txFir, rxEq2tx).Ok?
    ensures ok ==> Chain(rxPathClks[..], txPathClks[..]) == Solve(rate, rateGov, rxFir, txFir, rxEq2tx).value
    ensures !ok ==> rxPathClks[..] == old(rxPathClks[..]) && txPathClks[..] == old(txPathClks[..])
    decreases if rateGov < 7 then 7 - rateGov else 0
  {
    var recursion := true;
    var gov := rateGov;
    if gov == 1 && Wrap32(rxFir * rate * 8) < MIN_ADC {
      recursion, gov := false, 0;
    }
    if rate > MAX_SAMPLE_RATE {
      return false;
    }
    var clktf, clkrf := TxClk(rate, txFir), RxClk(rate, rxFir, rxEq2tx);
    ok := TryFrom(clkrf, clktf, gov, rxFir, txFir, rxPathClks, txPathClks);
    if !ok && gov < 7 && recursion {
      ok := CalculateRfClockChain(rate, gov + 1, rxFir, txFir, rxEq2tx, rxPathClks, txPathClks);
    }
  }

  function Path(bbpll: u32, top: u32, row: Row, fir: nat): Rates
    requires row.d2 > 0 && row.d1 > 0 && row.d0 > 0 && fir > 0
  {
    var c2 := Quot(top, row.d2);
    var c1 := Quot(c2, row.d1);
    var c0 := Quot(c1, row.d0);
    [bbpll, top, c2, c1, c0, Quot(c0, fir)]
  }

  method FillPath(clks: array<u32>, bbpll: u32, top: u32, row: Row, fir: nat)
    requires clks.Length == 6 && row.d2 > 0 && row.d1 > 0 && row.d0 > 0 && fir > 0
    modifies clks
    ensures clks[..] == Path(bbpll, top, row, fir)
  {
    clks[0] := bbpll;
    clks[1] := top;
    clks[2] := Quot(clks[1], row.d2);
    clks[3] := Quot(clks[2], row.d1);
    clks[4] := Quot(clks[3], row.d0);
    clks[5] := Quot(clks[4], fir);
  }

  // ---- what a solution is ----

  /** One stage divides p exactly, by one of the ratios its hardware offers. */
  predicate HalfBand(p: nat, c: nat) { p == c || p == 2 * c }

  predicate Third(p: nat, c: nat) { p == c || p == 2 * c || p == 3 * c }

  predicate PllStage(p: nat, c: nat) {
    p == 2 * c || p == 4 * c || p == 8 * c || p == 16 * c || p == 32 * c
  }

  predicate FirStage(p: nat, fir: nat, c: nat) {
    FirFactor(fir) && (if fir == 1 then p == c else if fir == 2 then p == 2 * c else p == 4 * c)
  }

  /** The RX path divides the BBPLL down to the requested rate without remainder. */
  predicate RxExact(c: Chain, rate: u32, rxFir: nat) {
    && c.rx[5] == rate
    && MIN_BBPLL < c.rx[0] <= MAX_BBPLL && MIN_ADC <= c.rx[1] <= MAX_ADC
    && PllStage(c.rx[0], c.rx[1]) && Third(c.rx[1], c.rx[2]) && HalfBand(c.rx[2], c.rx[3])
    && HalfBand(c.rx[3], c.rx[4]) && FirStage(c.rx[4], rxFir, c.rx[5])
  }

  /** So does the TX path, through a DAC at the ADC rate or half of it. */
  predicate TxExact(c: Chain, rate: u32, txFir: nat) {
    && c.tx[5] == rate && c.tx[0] == c.rx[0]
    && c.tx[1] <= MAX_DAC && HalfBand(c.rx[1], c.tx[1])
    && Third(c.tx[1], c.tx[2]) && HalfBand(c.tx[2], c.tx[3])
    && HalfBand(c.tx[3], c.tx[4]) && FirStage(c.tx[4], txFir, c.tx[5])
  }

  lemma BbpllInBand(adc: nat)
    requires MIN_ADC <= adc <= MAX_ADC
    ensures var b := BbpllRate(adc, 64); MIN_BBPLL < b <= MAX_BBPLL && PllStage(b, adc)
  {
    assert BbpllRate(adc, 64) == BbpllRate(adc, 32);
    assert BbpllRate(adc, 8) == if adc * 8 > MAX_BBPLL then BbpllRate(adc, 4) else adc * 8;
    assert BbpllRate(adc, 32) == if adc * 32 > MAX_BBPLL then BbpllRate(adc, 16) else adc * 32;
  }

  /** Row i can serve the clock: its ADC rate is in range, and a DAC that must
      run at half of it still has a row of its own. */
  predicate Feasible(clk: nat, i: nat)
    requires i < 7
  {
    MIN_ADC <= clk * ROWS[i].osr <= MAX_ADC && (clk * ROWS[i].osr > MAX_DAC ==> i != 4 && i != 6)
  }

  lemma RowExact(bbpll: u32, rate: u32, clk: u32, i: nat, fir: nat, top: u32)
    requires i < 7 && FirStage(clk, fir, rate) && top == clk * ROWS[i].osr
    ensures var p := Path(bbpll, top, ROWS[i], fir);
            p[0] == bbpll && p[5] == rate && p[1] == top && Third(p[1], p[2])
            && HalfBand(p[2], p[3]) && HalfBand(p[3], p[4])
            && FirStage(p[4], fir, p[5])
  {
    RowStages(clk, i, top);
  }

  /** The three stages of a row undo its oversampling ratio. */
  lemma RowStages(clk: u32, i: nat, top: u32)
    requires i < 7 && top == clk * ROWS[i].osr
    ensures var c2 := Quot(top, ROWS[i].d2);
            var c1 := Quot(c2, ROWS[i].d1);
            Quot(c1, ROWS[i].d0) == clk && Third(top, c2) && HalfBand(c2, c1) && HalfBand(c1, clk)
  {
  }

  /** With equal clocks the TX row has the DAC rate for its oversampling ratio. */
  lemma PairedRow(clk: nat, i: nat)
    requires i < 7 && MIN_ADC <= clk * ROWS[i].osr <= MAX_ADC
    ensures var adc := clk * ROWS[i].osr;
            var j := TxIndex(i, adc, adc);
            && (0 <= j <= 6 <==> Feasible(clk, i))
            && (Feasible(clk, i) ==> (if adc <= MAX_DAC then adc else adc / 2) == clk * ROWS[j].osr
                                     && HalfBand(adc, if adc <= MAX_DAC then adc else adc / 2))
  {
    assert (clk * ROWS[i].osr) / (clk * ROWS[i].osr) == 1;
  }

  lemma FirClock(rate: u32, fir: nat)
    requires rate <= MAX_SAMPLE_RATE && FirFactor(fir)
    ensures RxClk(rate, fir, false) == TxClk(rate, fir) == rate * fir && FirStage(rate * fir, fir, rate)
  {
  }

  lemma NoWrap(clk: nat, i: nat)
    requires i < 7 && clk <= 4 * MAX_SAMPLE_RATE
    ensures AdcRate(clk, i) == clk * ROWS[i].osr
  {
    MulMonotone(clk, ROWS[i].osr, 12);
  }

  lemma AttemptShape(clkrf: nat, clktf: nat, g: nat, rxFir: nat, txFir: nat) returns (j: nat)
    requires ClocksBounded(clkrf, clktf) && FirFactor(rxFir) && FirFactor(txFir)
    requires Attempt(clkrf, clktf, g, rxFir, txFir).Ok?
    ensures FirstInRange(clkrf, g) < 7 && j < 7
    ensures Attempt(clkrf, clktf, g, rxFir, txFir).value == Build(clkrf, FirstInRange(clkrf, g), j, rxFir, txFir)
  {
    var i := FirstInRange(clkrf, g);
    j := TxIndex(i, AdcRate(clkrf, i), DacRate(clktf, clkrf, i));
  }

  lemma BuildRx(rate: u32, clkrf: nat, i: nat, j: nat, rxFir: nat, txFir: nat)
    requires i < 7 && j < 7 && FirStage(clkrf, rxFir, rate) && FirFactor(txFir)
    requires clkrf <= 4 * MAX_SAMPLE_RATE && InRange(AdcRate(clkrf, i))
    ensures RxExact(Build(clkrf, i, j, rxFir, txFir), rate, rxFir)
  {
    hide BbpllRate, PllStage, Third, HalfBand, FirStage, Path;
    var adc := AdcRate(clkrf, i);
    NoWrap(clkrf, i);
    BbpllInBand(adc);
    RowExact(BbpllRate(adc, 64), rate, clkrf, i, rxFir, adc);
  }

  lemma AttemptRx(rate: u32, clkrf: nat, clktf: nat, g: nat, rxFir: nat, txFir: nat)
    requires ClocksBounded(clkrf, clktf) && FirStage(clkrf, rxFir, rate) && FirFactor(txFir)
    requires clkrf <= 4 * MAX_SAMPLE_RATE && Attempt(clkrf, clktf, g, rxFir, txFir).Ok?
    ensures RxExact(Attempt(clkrf, clktf, g, rxFir, txFir).value, rate, rxFir)
  {
    var j := AttemptShape(clkrf, clktf, g, rxFir, txFir);
    BuildRx(rate, clkrf, FirstInRange(clkrf, g), j, rxFir, txFir);
  }

  lemma AttemptTx(rate: u32, clk: nat, g: nat, fir: nat)
    requires FirStage(clk, fir, rate)
    requires clk <= 4 * MAX_SAMPLE_RATE && Attempt(clk, clk, g, fir, fir).Ok?
    ensures TxExact(Attempt(clk, clk, g, fir, fir).value, rate, fir)
  {
    hide BbpllRate, PllStage, Third, HalfBand, Path, Build, TxIndex;
    var i := FirstInRange(clk, g);
    BuildTx(rate, clk, i, fir);
  }

  lemma BuildTx(rate: u32, clk: nat, i: nat, fir: nat)
    requires i < 7 && FirFactor(fir) && FirStage(clk, fir, rate)
    requires clk <= 4 * MAX_SAMPLE_RATE && InRange(AdcRate(clk, i))
    ensures var adc := AdcRate(clk, i);
            var j := TxIndex(i, adc, adc);
            0 <= j <= 6 ==> TxExact(Build(clk, i, j, fir, fir), rate, fir)
  {
    hide BbpllRate, PllStage, Third, HalfBand, FirStage, Path, TxIndex, Build, TxExact;
    var adc := AdcRate(clk, i);
    var j := TxIndex(i, adc, adc);
    NoWrap(clk, i);
    PairedRow(clk, i);
    hide AdcRate, Feasible;
    if 0 <= j <= 6 {
      BuildBoth(rate, clk, i, j, fir, adc, if adc <= MAX_DAC then adc else adc / 2);
    }
  }

  lemma BuildBoth(rate: u32, clk: nat, i: nat, j: nat, fir: nat, adc: u32, dac: u32)
    requires i < 7 && j < 7 && FirFactor(fir) && FirStage(clk, fir, rate) && clk <= 4 * MAX_SAMPLE_RATE
    requires adc == AdcRate(clk, i) == clk * ROWS[i].osr && InRange(adc)
    requires dac == (if adc <= MAX_DAC then adc else adc / 2) == clk * ROWS[j].osr && HalfBand(adc, dac)
    ensures TxExact(Build(clk, i, j, fir, fir), rate, fir)
  {
    hide BbpllRate, PllStage, Third, HalfBand, FirStage, Path, AdcRate, TxExact, Build;
    BbpllInBand(adc);
    var bbpll := BbpllRate(adc, 64);
    BuildIs(clk, i, j, fir, adc, dac);
    RowExact(bbpll, rate, clk, i, fir, adc);
    RowExact(bbpll, rate, clk, j, fir, dac);
    TxParts(Path(bbpll, adc, ROWS[i], fir), Path(bbpll, dac, ROWS[j], fir), dac, rate, fir);
  }

  lemma BuildIs(clk: u32, i: nat, j: nat, fir: nat, adc: u32, dac: u32)
    requires i < 7 && j < 7 && FirFactor(fir) && adc == AdcRate(clk, i)
    requires dac == if adc <= MAX_DAC then adc else adc / 2
    requires BbpllRate(adc, 64) < TWO32
    ensures var bbpll := BbpllRate(adc, 64);
            Build(clk, i, j, fir, fir) == Chain(Path(bbpll, adc, ROWS[i], fir), Path(bbpll, dac, ROWS[j], fir))
  {
    hide BbpllRate, Path, AdcRate;
  }

  lemma TxParts(rx: Rates, tx: Rates, dac: nat, rate: u32, fir: nat)
    requires tx[0] == rx[0] && tx[1] == dac <= MAX_DAC && HalfBand(rx[1], dac) && tx[5] == rate
    requires Third(tx[1], tx[2]) && HalfBand(tx[2], tx[3]) && HalfBand(tx[3], tx[4]) && FirStage(tx[4], fir, tx[5])
    ensures TxExact(Chain(rx, tx), rate, fir)
  {
    hide Third, HalfBand, FirStage;
  }

  /** Every solution meets the request exactly; with equal FIR factors on both
      paths. */
  lemma {:induction false} SolutionsAreExact(rate: u32, gov: nat, rxFir: nat, txFir: nat)
    requires FirFactor(rxFir) && FirFactor(txFir)
    requires Solve(rate, gov, rxFir, txFir, false).Ok?
    ensures var c := Solve(rate, gov, rxFir, txFir, false).value;
            RxExact(c, rate, rxFir) && (rxFir == txFir ==> TxExact(c, rate, txFir))
    decreases if gov < 7 then 7 - gov else 0
  {
    FirClock(rate, rxFir);
    FirClock(rate, txFir);
    var g := if Resets(rate, gov, rxFir) then 0 else gov;
    if Attempt(rate * rxFir, rate * txFir, g, rxFir, txFir).Ok? {
      AttemptRx(rate, rate * rxFir, rate * txFir, g, rxFir, txFir);
      if rxFir == txFir {
        AttemptTx(rate, rate * rxFir, g, rxFir);
      }
    } else {
      SolutionsAreExact(rate, gov + 1, rxFir, txFir);
    }
  }

  lemma AttemptFinds(clk: nat, g: nat, fir: nat)
    requires clk <= 4 * MAX_SAMPLE_RATE && FirFactor(fir)
    ensures var i := FirstInRange(clk, g);
            && (Attempt(clk, clk, g, fir, fir).Ok? <==> i < 7 && Feasible(clk, i))
            && (i < 7 && Feasible(clk, i) ==>
                  var rx := Attempt(clk, clk, g, fir, fir).value.rx;
                  rx[1] == clk * ROWS[i].osr && rx[2] == clk * ROWS[i].osr / ROWS[i].d2)
  {
    var i := FirstInRange(clk, g);
    if i < 7 {
      NoWrap(clk, i);
      PairedRow(clk, i);
    }
  }

  lemma {:induction false} SkippedRowsAreInfeasible(clk: nat, g: nat, i: nat)
    requires clk <= 4 * MAX_SAMPLE_RATE && g <= i < 7 && i < FirstInRange(clk, g)
    ensures !Feasible(clk, i)
    decreases 7 - g
  {
    NoWrap(clk, i);
    if g < i {
      SkippedRowsAreInfeasible(clk, g + 1, i);
    }
  }

  /** The first row a governor lets the search consider. */
  function StartRow(clk: nat, gov: nat): nat {
    if gov == 1 && clk * 8 < MIN_ADC then 0 else gov
  }

  /** Row i is the first feasible one from `start` on; 7 stands for none. */
  predicate FirstFeasible(clk: nat, start: nat, i: nat) {
    && (i < 7 ==> start <= i && Feasible(clk, i))
    && forall h :: start <= h < 7 && h < i ==> !Feasible(clk, h)
  }

  /** The nominal governor finds a row whenever the highest oversampling does, and takes
      the highest oversampling exactly when no other row is feasible. */
  lemma NominalGovernor(clk: nat, i: nat, j: nat)
    requires FirstFeasible(clk, StartRow(clk, 1), i) && FirstFeasible(clk, StartRow(clk, 0), j)
    ensures i < 7 <==> j < 7
    ensures i == 0 <==> j == 0 && forall h :: 1 <= h < 7 ==> !Feasible(clk, h)
  {
    RowsByHand(clk);
    hide Feasible;
    var start := StartRow(clk, 1);
    assert start == 0 || start == 1;
    if start == 1 && j < 7 {
      assert Feasible(clk, 1) || !Feasible(clk, 0);
    }
  }

  lemma RowsByHand(clk: nat)
    ensures clk * 8 < MIN_ADC ==> forall h :: 1 <= h < 7 ==> !Feasible(clk, h)
    ensures clk * 8 >= MIN_ADC && Feasible(clk, 0) ==> Feasible(clk, 1)
  {
    forall h | 1 <= h < 7 && clk * 8 < MIN_ADC ensures !Feasible(clk, h) {
      MulMonotone(clk, ROWS[h].osr, 8);
    }
  }

  lemma SolveStep(rate: u32, clk: nat, gov: nat, fir: nat)
    requires rate <= MAX_SAMPLE_RATE && FirFactor(fir) && clk == rate * fir
    ensures clk <= 4 * MAX_SAMPLE_RATE
    ensures var g := StartRow(clk, gov);
            var r := Attempt(clk, clk, g, fir, fir);
            Solve(rate, gov, fir, fir, false) ==
              if g != gov || r.Ok? || gov >= 7 then r else Solve(rate, gov + 1, fir, fir, false)
  {
    FirClock(rate, fir);
    ResetLaw(rate, clk, gov, fir);
  }

  lemma ResetLaw(rate: u32, clk: nat, gov: nat, fir: nat)
    requires clk == rate * fir <= 4 * MAX_SAMPLE_RATE
    ensures Resets(rate, gov, fir) <==> StartRow(clk, gov) != gov
  {
    assert fir * rate == clk;
    assert Wrap32(clk * 8) == clk * 8;
  }

  /** The search is complete: with equal FIR factors it finds a chain exactly
      when some row from the governor on is feasible, and takes the first one. */
  lemma {:induction false} SolverIsComplete(rate: u32, clk: nat, gov: nat, fir: nat) returns (i: nat)
    requires FirFactor(fir) && clk == rate * fir
    ensures FirstFeasible(clk, StartRow(clk, gov), i)
    ensures Solve(rate, gov, fir, fir, false).Ok? <==> rate <= MAX_SAMPLE_RATE && i < 7
    ensures Solve(rate, gov, fir, fir, false).Ok? ==>
              var rx := Solve(rate, gov, fir, fir, false).value.rx;
              rx[1] == clk * ROWS[i].osr && rx[2] == clk * ROWS[i].osr / ROWS[i].d2
    decreases if gov < 7 then 7 - gov else 0
  {
    var g := StartRow(clk, gov);
    if rate > MAX_SAMPLE_RATE {
      i := FirstFeasibleRow(clk, g);
      return;
    }
    SolveStep(rate, clk, gov, fir);
    AttemptFinds(clk, g, fir);
    i := FirstInRange(clk, g);
    forall h | g <= h < 7 && h < i ensures !Feasible(clk, h) {
      SkippedRowsAreInfeasible(clk, g, h);
    }
    if i < 7 && Feasible(clk, i) {
    } else if g != gov {
      SlowRowsAreInfeasible(clk);
      i := 7;
    } else if gov < 7 {
      i := SolverIsComplete(rate, clk, gov + 1, fir);
    }
  }

  lemma {:induction false} FirstFeasibleRow(clk: nat, start: nat) returns (i: nat)
    ensures FirstFeasible(clk, start, i)
    decreases 7 - start
  {
    if start >= 7 || Feasible(clk, start) {
      i := start;
    } else {
      i := FirstFeasibleRow(clk, start + 1);
    }
  }

  lemma SlowRowsAreInfeasible(clk: nat)
    requires clk * 8 < MIN_ADC
    ensures forall h :: 1 <= h < 7 ==> !Feasible(clk, h)
  {
  }
}
