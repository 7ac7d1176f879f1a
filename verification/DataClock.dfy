/** The data clock of the digital interface: which clock chains it can be taken from. */
module DataClock {
  import opened CTypes
  import opened ClockChain

  datatype Interface = Interface(rx2tx2: bool, lvds: bool, rxFirDec: nat, txFirInt: nat)

  /** abs() of an unsigned 32-bit difference taken as a signed one. */
  function AbsDiff(x: nat, y: nat): nat {
    var d := (x - y) % TWO32;
    if d < 0x8000_0000 then d else TWO32 - d
  }

  /** ad9361_validate_trx_clock_chain: some clock must equal the data clock. */
  predicate ChainAccepted(f: Interface, rx: Rates) {
    var perSample: int := (if f.rx2tx2 then 4 else 2) / (if f.lvds then 1 else 2);
    var data := Wrap32(perSample * rx[5]);
    && (f.lvds || data <= MAX_SAMPLE_RATE)
    && (AbsDiff(rx[1], data) < 4 || AbsDiff(rx[1] / 2, data) < 4 || AbsDiff(rx[1] / 3, data) < 4
        || AbsDiff(rx[2] / 2, data) < 4 || AbsDiff(rx[2] / 4, data) < 4
        || AbsDiff(rx[2] / 8, data) < 4 || AbsDiff(rx[2] / 16, data) < 4)
  }

  // ---- the same, without the chain ----

  /** Data clocks per sample: two words each way for two channels over LVDS; half as
      many with one channel, and half as many over CMOS. */
  function ClocksPerSample(f: Interface): (p: nat)
    ensures 1 <= p <= 4
  {
    match (f.lvds, f.rx2tx2)
    case (true, true) => 4
    case (true, false) => 2
    case (false, true) => 2
    case (false, false) => 1
  }

  /** CMOS carries two channels up to 30.72 MHz. */
  predicate RateFits(f: Interface, rate: nat) { !f.lvds && f.rx2tx2 ==> rate <= 30720000 }

  /** An ADC at n times the sample rate, divided by d2 in its first stage, offers a
      clock at p times the rate: itself, a half or a third of it, or a half to a
      sixteenth of the first stage. */
  predicate Offers(n: nat, d2: nat, p: nat) {
    n == p || n == 2 * p || n == 3 * p || n == 2 * d2 * p || n == 4 * d2 * p || n == 8 * d2 * p || n == 16 * d2 * p
  }

  predicate InterfaceFits(f: Interface, rate: nat, n: nat, d2: nat) {
    RateFits(f, rate) && Offers(n, d2, ClocksPerSample(f))
  }

  lemma SmallDifference(x: int, y: int)
    requires 0 <= x < 0x7FFF_0000 && 0 <= y < 0x7FFF_0000
    ensures AbsDiff(x, y) == if x < y then y - x else x - y
  {
  }

  /** A quotient is within 4 of y exactly when it is y, if the dividend is either k
      times y or far from it. */
  lemma FarOrEqual(x: nat, k: nat, y: nat)
    requires 1 <= k <= 48 && x < 0x7FFF_0000 && y < 0x7FFF_0000
    requires x == k * y || x + 500000 <= k * y || k * y + 500000 <= x
    ensures AbsDiff(x / k, y) < 4 <==> x == k * y
  {
    var q := x / k;
    DivBounds(x, k);
    QuotientFits(x, k);
    SmallDifference(q, y);
    hide AbsDiff;
    assert k * (q + 4) == k * q + 4 * k && k * (y + 4) == k * y + 4 * k;
    if x == k * y {
      QuotientIs(x, k, y);
    } else if x < k * y && y < q + 4 {
      MulMonotone(k, y, q + 4);
    } else if x > k * y && q < y + 4 {
      MulMonotone(k, q, y + 4);
    }
  }

  lemma MultiplesApart(n: nat, c: nat, rate: nat, x: nat, z: nat)
    requires x == n * rate && z == c * rate && rate >= 500000
    ensures n == c ==> x == z
    ensures n < c ==> x + 500000 <= z
    ensures n > c ==> z + 500000 <= x
  {
    assert (n + 1) * rate == x + rate && (c + 1) * rate == z + rate;
    if n < c {
      MulMonotone(rate, n + 1, c);
    } else if n > c {
      MulMonotone(rate, c + 1, n);
    }
  }

  lemma DataClockBound(p: nat, rate: nat, y: nat)
    requires y == p * rate && p <= 4 && rate <= MAX_SAMPLE_RATE
    ensures y <= 4 * MAX_SAMPLE_RATE
  {
    MulMonotone(rate, p, 4);
  }

  lemma Associative(k: nat, p: nat, rate: nat)
    ensures k * (p * rate) == (k * p) * rate
  {
  }

  /** Within 4 Hz of the data clock is the data clock: ratios that are not equal are
      far apart at every sample rate. */
  lemma NearIsEqual(n: nat, k: nat, p: nat, rate: nat, x: nat, y: nat)
    requires 500000 <= rate <= MAX_SAMPLE_RATE && 1 <= k <= 48 && p <= 4
    requires x == n * rate <= MAX_ADC && y == p * rate
    ensures AbsDiff(x / k, y) < 4 <==> n == k * p
  {
    hide AbsDiff;
    var c := k * p;
    Associative(k, p, rate);
    DataClockBound(p, rate, y);
    MultiplesApart(n, c, rate, x, k * y);
    FarOrEqual(x, k, y);
  }

  lemma FirstStage(n: nat, d2: nat, k: nat, rate: nat)
    requires d2 > 0 && k > 0
    ensures d2 * k > 0 && n * rate / d2 / k == n * rate / (d2 * k)
  {
    NestedFloor(n * rate, d2, k);
  }

  /** A chain with these two clocks and this sample rate is accepted exactly when the
      interface fits. */
  lemma AcceptedExactly(f: Interface, rx: Rates, rate: nat, n: nat, d2: nat)
    requires 500000 <= rate <= MAX_SAMPLE_RATE && n * rate <= MAX_ADC && 1 <= d2 <= 3
    requires rx[1] == n * rate && rx[2] == n * rate / d2 && rx[5] == rate
    ensures ChainAccepted(f, rx) <==> InterfaceFits(f, rate, n, d2)
  {
    var p := ClocksPerSample(f);
    var x, y := n * rate, p * rate;
    NearIsEqual(n, 1, p, rate, x, y);
    NearIsEqual(n, 2, p, rate, x, y);
    NearIsEqual(n, 3, p, rate, x, y);
    FirstStage(n, d2, 2, rate);
    NearIsEqual(n, d2 * 2, p, rate, x, y);
    FirstStage(n, d2, 4, rate);
    NearIsEqual(n, d2 * 4, p, rate, x, y);
    FirstStage(n, d2, 8, rate);
    NearIsEqual(n, d2 * 8, p, rate, x, y);
    FirstStage(n, d2, 16, rate);
    NearIsEqual(n, d2 * 16, p, rate, x, y);
    DataClockIs(f, rate);
    hide AbsDiff;
    assert n * rate / 1 == n * rate;
  }

  lemma DataClockIs(f: Interface, rate: nat)
    requires rate <= MAX_SAMPLE_RATE
    ensures var perSample: int := (if f.rx2tx2 then 4 else 2) / (if f.lvds then 1 else 2);
            Wrap32(perSample * rate) == ClocksPerSample(f) * rate
    ensures ClocksPerSample(f) * rate <= MAX_SAMPLE_RATE || f.lvds <==> RateFits(f, rate)
  {
  }

  /** The chains of the solver: a rate is accepted exactly when the first feasible row
      of the table fits the interface. */
  lemma SolvedIsAccepted(f: Interface, rate: u32, gov: nat, fir: nat, ch: Chain, i: nat)
    requires FirFactor(fir) && Solve(rate, gov, fir, fir, false) == Ok(ch)
    requires FirstFeasible(rate * fir, StartRow(rate * fir, gov), i)
    ensures i < 7 && (ChainAccepted(f, ch.rx) <==> InterfaceFits(f, rate, ROWS[i].osr * fir, ROWS[i].d2))
  {
    hide Solve, ChainAccepted, InterfaceFits, StartRow, FirstFeasible, RxExact, TxExact;
    var n := SolvedClocks(rate, gov, fir, ch, i);
    AcceptedExactly(f, ch.rx, rate, n, ROWS[i].d2);
  }

  /** The first two clocks of the chain, and that the rate is not too low. */
  lemma SolvedClocks(rate: u32, gov: nat, fir: nat, ch: Chain, i: nat) returns (n: nat)
    requires FirFactor(fir) && Solve(rate, gov, fir, fir, false) == Ok(ch)
    requires FirstFeasible(rate * fir, StartRow(rate * fir, gov), i)
    ensures i < 7 && n == ROWS[i].osr * fir && 1 <= ROWS[i].d2 <= 3
    ensures 500000 <= rate <= MAX_SAMPLE_RATE && n * rate <= MAX_ADC
    ensures ch.rx[1] == n * rate && ch.rx[2] == n * rate / ROWS[i].d2 && ch.rx[5] == rate
  {
    hide Solve, StartRow, FirstFeasible, TxExact;
    var clk := rate * fir;
    var j := SolverIsComplete(rate, clk, gov, fir);
    OneFirstRow(clk, StartRow(clk, gov), i, j);
    SolutionsAreExact(rate, gov, fir, fir);
    SampleIs(ch, rate, fir);
    hide RxExact;
    n := RowAndFir(rate, fir, clk, i);
  }

  lemma SampleIs(ch: Chain, rate: u32, fir: nat)
    requires RxExact(ch, rate, fir)
    ensures ch.rx[5] == rate
  {
  }

  lemma RowAndFir(rate: nat, fir: nat, clk: nat, i: nat) returns (n: nat)
    requires FirFactor(fir) && clk == rate * fir && i < 7 && Feasible(clk, i)
    ensures n == ROWS[i].osr * fir && clk * ROWS[i].osr == n * rate && 1 <= ROWS[i].d2 <= 3
    ensures rate >= 500000 && n * rate <= MAX_ADC
  {
    n := ROWS[i].osr * fir;
    var o := ROWS[i].osr;
    assert (rate * fir) * o == (o * fir) * rate;
    SlowestRate(n, rate);
  }

  lemma SlowestRate(n: nat, rate: nat)
    requires n <= 48 && n * rate >= MIN_ADC
    ensures rate >= 500000
  {
    if rate < 500000 {
      MulMonotone(n, rate, 500000);
    }
  }

  lemma OneFirstRow(clk: nat, start: nat, i: nat, j: nat)
    requires FirstFeasible(clk, start, i) && FirstFeasible(clk, start, j) && j < 7
    ensures i == j && Feasible(clk, i)
  {
    hide Feasible;
  }

  /** 40 MHz over CMOS with one channel: the ADC runs at 480 MHz, and a quarter of its
      first stage is the data clock. */
  lemma CmosInstance(f: Interface)
    requires !f.lvds && !f.rx2tx2
    ensures FirstFeasible(40000000, StartRow(40000000, 0), 0)
    ensures InterfaceFits(f, 40000000, ROWS[0].osr, ROWS[0].d2)
  {
  }
}
