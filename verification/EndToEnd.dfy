/** From a sample rate to programmed dividers: the chain found by the solver,
    pushed through the cached clock tree, lands on the intended dividers in
    spite of the rounding of the BBPLL. */
module EndToEnd {
  import opened CTypes
  import opened Bytes
  import opened Registers
  import opened Device
  import opened Dividers
  import opened ClockTree
  import opened Coherence
  import opened ClockChain
  import opened DataClock
  import Bbpll
  import LO = LocalOscillator

  /** A rate the BBPLL rounding may have moved. */
  predicate Close(x: int, target: int) { -17 <= x - target <= 16 }

  predicate StageDivider(d: nat) {
    d == 1 || d == 2 || d == 3 || d == 4 || d == 8 || d == 16 || d == 32 || d == 64
  }

  /** Rounding to the nearest ratio finds the exact divider of a close rate, also
      when it starts again from the rounded rate. */
  lemma RatioExact(p: u32, d: nat, rate: u32)
    requires StageDivider(d) && rate >= 500000 && d * rate <= 1430000000 && Close(p, d * rate)
    ensures p > 0 && p / d > 0 && p / d < TWO32
    ensures Ratio(rate, p) == (1, d) && Ratio(p / d, p) == (1, d)
  {
    if d == 1 {
      UnitRatio(p, rate);
      UnitRatio(p, p);
    } else {
      DividedBack(p, d, rate);
      NearestQuotient(p, d, rate);
      NearestQuotient(p, d, p / d);
    }
  }

  lemma UnitRatio(p: u32, rate: u32)
    requires rate >= 499000 && rate <= 1430000017 && -17 <= p - rate <= 16
    ensures p > 0 && Ratio(rate, p) == (1, 1)
  {
    QuotientIs(rate + p / 2, p, 1);
    QuotientIs(p + rate / 2, rate, 1);
  }

  lemma DividedBack(p: u32, d: nat, rate: u32)
    requires StageDivider(d) && d > 1 && rate >= 500000 && d * rate <= 1430000000 && Close(p, d * rate)
    ensures 200 <= p / d < TWO32 && 0 <= p - d * (p / d) <= 63 && p + p / d < TWO32 && p > 0 && p + rate < TWO32
  {
    DivBounds(p, d);
  }

  lemma NearestQuotient(p: u32, d: nat, rate: u32)
    requires StageDivider(d) && d > 1 && rate >= 200 && -64 <= p - d * rate <= 63 && p + rate < TWO32
    ensures Ratio(rate, p) == (1, d)
  {
    assert rate * d == d * rate;
    QuotientIs(p + rate / 2, rate, d);
  }

  /** Where a clock already shows the requested rate, its divider is the right one. */
  lemma MatchingRateMeansDivider(p: u32, d0: nat, d: nat, rate: u32)
    requires 1 <= d0 <= 128 && d >= 1 && rate >= 500000 && p / d0 == rate && Close(p, d * rate)
    ensures d0 == d
  {
    DivBounds(p, d0);
    assert rate * (d + 1) == d * rate + rate && rate * (d0 + 1) == d0 * rate + rate;
    assert rate * d == d * rate && rate * d0 == d0 * rate;
    Cancel(rate, d0, d + 1);
    Cancel(rate, d, d0 + 1);
  }

  function Bypass(c: ClockTree.Config, i: Factor): bool {
    if i <= RX_SAMPL_CLK then c.bypassRxFir else c.bypassTxFir
  }

  lemma EncodableIsStage(i: Factor, d: nat, bypassFir: bool)
    requires Encodable(i, d, bypassFir)
    ensures StageDivider(d)
  {
  }

  /** The registers clk_set_rate leaves when the request is close to the parent. */
  lemma ApplyStores(c: ClockTree.Config, t: Tree, i: Factor, d: nat, rate: u32)
    requires Encodable(i, d, Bypass(c, i)) && rate >= 500000 && d * rate <= 1430000000
    requires Close(t.rates[Parent(i)], d * rate)
    ensures Defined(c, t, i, rate) && Encode(i, d, Bypass(c, i)).Ok?
    ensures Apply(c, t, i, rate) == t.WithRegs(Store(i, t.Regs(), Encode(i, d, Bypass(c, i)).value))
  {
    var p := t.rates[Parent(i)];
    EncodableIsStage(i, d, Bypass(c, i));
    RatioExact(p, d, rate);
    CodeFits(i, d, Bypass(c, i));
    FactorSteps(c, i, t.Regs(), d, rate, p);
    hide Encode, Ratio, Store, Encodable, SetFactor, RoundFactor;
  }

  /** Rounding and then programming a ratio found exactly. */
  lemma FactorSteps(c: ClockTree.Config, i: Factor, r: Regs, d: nat, rate: u32, p: u32)
    requires rate > 0 && p > 0 && 1 <= d < TWO32 && 0 < p / d < TWO32
    requires Ratio(rate, p) == (1, d) && Ratio(p / d, p) == (1, d) && Encode(i, d, Bypass(c, i)).Ok?
    ensures RoundFactor(c, i, rate, p) == p / d
    ensures SetFactor(c, i, r, p / d, p) == Store(i, r, Encode(i, d, Bypass(c, i)).value)
  {
    hide Encode, Ratio, Store;
  }

  /** The refresh after a change keeps every register of the clock blocks. */
  lemma AfterRefresh(c: ClockTree.Config, a: Tree, source: nat)
    requires source < NUM_CLKS
    ensures var e := Refresh(c, OwnRate(c, a, source), NUM_CLKS);
            SameSetting(a, e) && Coherent(c, e)
  {
    RefreshOneQuiet(c, a, source);
    RefreshQuiet(c, OwnRate(c, a, source), NUM_CLKS);
    QuietTransitive(a, OwnRate(c, a, source), Refresh(c, OwnRate(c, a, source), NUM_CLKS));
    RefreshIsCoherent(c, OwnRate(c, a, source), NUM_CLKS);
  }

  /** Reference and BBPLL rates are read from registers no divider touches. */
  lemma RootsStay(c: ClockTree.Config, t: Tree, e: Tree)
    requires Coherent(c, t) && Coherent(c, e)
    requires forall a :: 0x041 <= a <= 0x045 ==> t.Regs()[a] == e.Regs()[a]
    ensures e.rates[BB_REFCLK] == t.rates[BB_REFCLK] && e.rates[BBPLL_CLK] == t.rates[BBPLL_CLK]
  {
    assert t.rates[BB_REFCLK] == Recalc(c, t, BB_REFCLK) && e.rates[BB_REFCLK] == Recalc(c, e, BB_REFCLK);
    assert t.rates[BBPLL_CLK] == Recalc(c, t, BBPLL_CLK) && e.rates[BBPLL_CLK] == Recalc(c, e, BBPLL_CLK);
    hide FromByte, Bbpll.RateOf, RefRate, DivOf;
    assert t.Regs()[0x045] == e.Regs()[0x045] && t.Regs()[0x041] == e.Regs()[0x041];
    assert t.Regs()[0x042] == e.Regs()[0x042] && t.Regs()[0x043] == e.Regs()[0x043];
    assert t.Regs()[0x044] == e.Regs()[0x044];
  }

  /** What one stage leaves: its own divider, all others, and the roots. */
  predicate StageDone(c: ClockTree.Config, t: Tree, e: Tree, i: Factor, d: nat) {
    && Coherent(c, e) && DivOf(i, e.Regs()) == d
    && (forall j: Factor :: j != i ==> DivOf(j, e.Regs()) == DivOf(j, t.Regs()))
    && e.rates[BB_REFCLK] == t.rates[BB_REFCLK] && e.rates[BBPLL_CLK] == t.rates[BBPLL_CLK]
  }

  lemma StageSets(c: ClockTree.Config, t: Tree, i: Factor, d: nat, rate: u32)
    requires Coherent(c, t) && Encodable(i, d, Bypass(c, i)) && rate >= 500000 && d * rate <= 1430000000
    requires Close(t.rates[Parent(i)], d * rate)
    ensures Defined(c, t, i, rate) && StageDone(c, t, SetRate(c, t, i, rate), i, d)
  {
    ApplyStores(c, t, i, d, rate);
    if t.rates[i] == rate {
      assert rate == Recalc(c, t, i);
      DividersBounded(i, t.Regs());
      MatchingRateMeansDivider(t.rates[Parent(i)], DivOf(i, t.Regs()), d, rate);
    } else {
      StageProgrammed(c, t, i, d, rate);
    }
  }

  lemma StageProgrammed(c: ClockTree.Config, t: Tree, i: Factor, d: nat, rate: u32)
    requires Coherent(c, t) && Encodable(i, d, Bypass(c, i)) && Defined(c, t, i, rate) && t.rates[i] != rate
    requires Encode(i, d, Bypass(c, i)).Ok?
    requires Apply(c, t, i, rate) == t.WithRegs(Store(i, t.Regs(), Encode(i, d, Bypass(c, i)).value))
    ensures StageDone(c, t, SetRate(c, t, i, rate), i, d)
  {
    var r := Store(i, t.Regs(), Encode(i, d, Bypass(c, i)).value);
    var a := t.WithRegs(r);
    var e := SetRate(c, t, i, rate);
    AfterRefresh(c, a, i);
    assert e == Refresh(c, OwnRate(c, a, i), NUM_CLKS);
    assert IsClock(0x002) && IsClock(0x003) && IsClock(0x00A);
    forall j: Factor ensures DivOf(j, e.Regs()) == if j == i then d else DivOf(j, t.Regs()) {
      SetThenGet(i, t.Regs(), d, Bypass(c, i), j);
      DivSame(r, e.Regs(), j);
    }
    StoreTouches(i, t.Regs(), Encode(i, d, Bypass(c, i)).value);
    forall x | 0x041 <= x <= 0x045 ensures t.Regs()[x] == e.Regs()[x] {
      assert IsClock(x);
    }
    RootsStay(c, t, e);
  }

  lemma StoreTouches(i: Factor, r: Regs, code: nat)
    ensures forall x :: 0x041 <= x <= 0x045 ==> Store(i, r, code)[x] == r[x]
  {
    hide Merged, ToByte;
  }

  // ---- the whole chain ----

  /** The rate the solver intends for a clock, and for its parent. */
  function Target(ch: Chain, i: Factor): u32 {
    if i <= RX_SAMPL_CLK then ch.rx[i - ADC_CLK + 1] else ch.tx[i - DAC_CLK + 1]
  }

  function ParentTarget(ch: Chain, i: Factor): u32 {
    if i == ADC_CLK then ch.rx[0] else Target(ch, Parent(i))
  }

  function Intended(ch: Chain, i: Factor): nat {
    if Target(ch, i) == 0 then 1 else ParentTarget(ch, i) / Target(ch, i)
  }

  /** The stages of a chain can all be programmed as they stand. */
  predicate Programmable(c: ClockTree.Config, ch: Chain, i: Factor) {
    && Target(ch, i) >= 500000
    && Encodable(i, Intended(ch, i), Bypass(c, i))
    && Intended(ch, i) * Target(ch, i) == ParentTarget(ch, i) <= 1430000000
  }

  /** The order of ad9361_set_trx_clock_chain: RX and TX stages alternate. */
  function Stage(k: nat): Factor
    requires k < 10
  {
    if k % 2 == 0 then ADC_CLK + k / 2 else DAC_CLK + k / 2
  }

  /** The position of a stage in that order. */
  function Position(i: Factor): (k: nat)
    ensures k < 10 && Stage(k) == i
  {
    if i <= RX_SAMPL_CLK then 2 * (i - ADC_CLK) else 2 * (i - DAC_CLK) + 1
  }

  /** One clk_set_rate of the chain; it never meets an undefined case. */
  function SetOne(c: ClockTree.Config, t: Tree, source: nat, rate: u32): Tree {
    if Defined(c, t, source, rate) then SetRate(c, t, source, rate) else t
  }

  /** The BBPLL, then the first k divider stages. */
  function SetStages(c: ClockTree.Config, t: Tree, ch: Chain, k: nat): Tree
    requires k <= 10
  {
    if k == 0 then SetOne(c, t, BBPLL_CLK, ch.rx[0])
    else SetOne(c, SetStages(c, t, ch, k - 1), Stage(k - 1), Target(ch, Stage(k - 1)))
  }

  /** Each of these calls meets a defined case. */
  predicate StagesDefined(c: ClockTree.Config, t: Tree, ch: Chain, k: nat)
    requires k <= 10
  {
    if k == 0 then Defined(c, t, BBPLL_CLK, ch.rx[0])
    else
      && StagesDefined(c, t, ch, k - 1)
      && Defined(c, SetStages(c, t, ch, k - 1), Stage(k - 1), Target(ch, Stage(k - 1)))
  }

  lemma {:induction false} DefinedSoFar(c: ClockTree.Config, t: Tree, ch: Chain, k: nat)
    requires k <= 10 && StagesDefined(c, t, ch, k)
    ensures Defined(c, t, BBPLL_CLK, ch.rx[0])
    ensures forall n :: 0 <= n < k ==> Defined(c, SetStages(c, t, ch, n), Stage(n), Target(ch, Stage(n)))
  {
    if k > 0 {
      DefinedSoFar(c, t, ch, k - 1);
    }
  }

  /** A rate close to the target stays close under exact division. */
  lemma CloseDivided(p: u32, d: nat, target: nat)
    requires StageDivider(d) && Close(p, d * target)
    ensures Close(p / d, target)
  {
  }

  /** Once its own divider and those above it are right, a clock is close to its target. */
  lemma {:induction false} TargetsReached(c: ClockTree.Config, t: Tree, ch: Chain, i: Factor)
    requires Coherent(c, t) && Close(t.rates[BBPLL_CLK], ch.rx[0])
    requires forall j: Factor :: Position(j) <= Position(i) ==> Programmable(c, ch, j)
    requires forall j: Factor :: Position(j) <= Position(i) ==> DivOf(j, t.Regs()) == Intended(ch, j)
    ensures Close(t.rates[i], Target(ch, i))
    decreases Position(i)
  {
    if i != ADC_CLK {
      assert Position(Parent(i)) < Position(i);
      TargetsReached(c, t, ch, Parent(i));
    }
    assert t.rates[i] == Recalc(c, t, i);
    EncodableIsStage(i, Intended(ch, i), Bypass(c, i));
    CloseDivided(t.rates[Parent(i)], Intended(ch, i), Target(ch, i));
  }

  /** A BBPLL reference the driver accepts, with one byte of integer word. */
  predicate GoodRef(t: Tree) { 5585938 <= t.rates[BB_REFCLK] <= 70000000 }

  /** Setting the BBPLL lands within rounding of the target. */
  lemma BbpllReached(c: ClockTree.Config, t: Tree, rate: u32)
    requires Coherent(c, t) && GoodRef(t) && Bbpll.MIN_FREQ <= rate <= Bbpll.MAX_FREQ && Safe(t, BBPLL_CLK, rate)
    ensures var e := SetOne(c, t, BBPLL_CLK, rate);
            Coherent(c, e) && GoodRef(e) && Close(e.rates[BBPLL_CLK], rate)
  {
    var e := SetRate(c, t, BBPLL_CLK, rate);
    SetRateCoherence(c, t, BBPLL_CLK, rate);
    if t.rates[BBPLL_CLK] != rate {
      BbpllProgrammed(c, t, rate);
    } else if StartsBbpll(t, BBPLL_CLK, rate) {
      RestartCoherence(c, t, rate);
      RestartIsClose(t, rate);
    }
    hide AdcMatches, Restarted, SetRate;
  }

  lemma RestartIsClose(t: Tree, rate: u32)
    requires GoodRef(t) && Bbpll.MIN_FREQ <= rate <= Bbpll.MAX_FREQ
    ensures Close(Restarted(rate, t.rates[BB_REFCLK]), rate)
  {
    var p := t.rates[BB_REFCLK];
    hide Bbpll.RateOf, Bbpll.Achieved, Bbpll.IntegerWord, Bbpll.FractWord, SetBbpll, BbpllInteger, BbpllFract;
    hide Restarted, Bbpll.RoundRate;
    RoundedTwice(t.Regs(), rate, p);
    var round := Bbpll.Achieved(rate, p);
    BbpllWords(t.Regs(), round, p);
    RestartedIs(rate, p, round);
  }

  lemma RestartedIs(rate: u32, p: u32, round: u32)
    requires p > 0 && Bbpll.MIN_FREQ <= rate <= Bbpll.MAX_FREQ && round == Bbpll.Achieved(rate, p)
    requires Bbpll.RateOf(Bbpll.IntegerWord(round, p) % 256, Bbpll.FractWord(round, p), p) == round
    ensures Restarted(rate, p) == round
  {
    hide Bbpll.RateOf, Bbpll.Achieved, Bbpll.IntegerWord, Bbpll.FractWord;
  }

  lemma BbpllProgrammed(c: ClockTree.Config, t: Tree, rate: u32)
    requires Coherent(c, t) && GoodRef(t) && Bbpll.MIN_FREQ <= rate <= Bbpll.MAX_FREQ && t.rates[BBPLL_CLK] != rate
    ensures var e := SetRate(c, t, BBPLL_CLK, rate);
            e.rates[BB_REFCLK] == t.rates[BB_REFCLK] && Close(e.rates[BBPLL_CLK], rate)
  {
    hide SetBbpll, Bbpll.Achieved, Apply, Refresh, OwnRate, Recalc, BbpllInteger, BbpllFract, Bbpll.RateOf, Coherent;
    var p := t.rates[BB_REFCLK];
    var round := Bbpll.Achieved(rate, p);
    RoundedTwice(t.Regs(), rate, p);
    BbpllFrame(t.Regs(), round, p);
    BbpllApplied(c, t, rate);
    AfterRefresh(c, Apply(c, t, BBPLL_CLK, rate), BBPLL_CLK);
    BbpllRefreshed(c, t, SetBbpll(t.Regs(), round, p), SetRate(c, t, BBPLL_CLK, rate));
  }

  lemma BbpllApplied(c: ClockTree.Config, t: Tree, rate: u32)
    requires GoodRef(t) && Bbpll.MIN_FREQ <= rate <= Bbpll.MAX_FREQ
    requires Bbpll.Achieved(rate, t.rates[BB_REFCLK]) < TWO32
    ensures var p := t.rates[BB_REFCLK];
            Apply(c, t, BBPLL_CLK, rate).Regs() == SetBbpll(t.Regs(), Bbpll.Achieved(rate, p), p)
  {
    hide SetBbpll, Bbpll.Achieved;
  }

  /** The driver programs the rounded rate, which rounding leaves alone. */
  lemma RoundedTwice(r: Regs, rate: u32, p: u32)
    requires 5585938 <= p <= 70000000 && Bbpll.MIN_FREQ <= rate <= Bbpll.MAX_FREQ
    ensures var round := Bbpll.Achieved(rate, p);
            && round < TWO32 && Close(round, rate)
            && var s := SetBbpll(r, round, p);
               Bbpll.RateOf(BbpllInteger(s), BbpllFract(s), p) == round
  {
    Bbpll.RoundingError(rate, p);
    Bbpll.RegisterRatesAreFixed(Bbpll.IntegerWord(rate, p), Bbpll.FractWord(rate, p), p);
    hide Bbpll.RateOf, Bbpll.IntegerWord, Bbpll.FractWord;
    var round := Bbpll.Achieved(rate, p);
    assert Bbpll.Achieved(round, p) == round;
    hide SetBbpll, Bbpll.Achieved;
    BbpllReadsBack(r, round, p);
  }

  lemma BbpllRefreshed(c: ClockTree.Config, t: Tree, r: Regs, e: Tree)
    requires Coherent(c, t) && Coherent(c, e)
    requires t.Regs()[0x045] == r[0x045] && forall x :: 0 <= x < SIZE && IsClock(x) ==> e.Regs()[x] == r[x]
    ensures e.rates[BB_REFCLK] == t.rates[BB_REFCLK]
    ensures e.rates[BBPLL_CLK] == Wrap32(Bbpll.RateOf(BbpllInteger(r), BbpllFract(r), t.rates[BB_REFCLK]))
  {
    assert IsClock(0x041) && IsClock(0x042) && IsClock(0x043) && IsClock(0x044) && IsClock(0x045);
    assert t.rates[BB_REFCLK] == Recalc(c, t, BB_REFCLK) && e.rates[BB_REFCLK] == Recalc(c, e, BB_REFCLK);
    assert e.rates[BBPLL_CLK] == Recalc(c, e, BBPLL_CLK);
    hide FromByte, Bbpll.RateOf, RefRate, DivOf;
  }

  predicate AllProgrammable(c: ClockTree.Config, ch: Chain) { forall i: Factor :: Programmable(c, ch, i) }

  /** The first k stages have their dividers. */
  predicate DoneTo(c: ClockTree.Config, e: Tree, ch: Chain, k: nat) {
    && Coherent(c, e) && GoodRef(e) && Close(e.rates[BBPLL_CLK], ch.rx[0])
    && forall i: Factor :: Position(i) < k ==> DivOf(i, e.Regs()) == Intended(ch, i)
  }

  lemma StageStep(c: ClockTree.Config, b: Tree, ch: Chain, k: nat)
    requires k < 10 && AllProgrammable(c, ch) && DoneTo(c, b, ch, k)
    ensures Defined(c, b, Stage(k), Target(ch, Stage(k)))
    ensures DoneTo(c, SetOne(c, b, Stage(k), Target(ch, Stage(k))), ch, k + 1)
  {
    var i := Stage(k);
    ParentClose(c, b, ch, i);
    assert Programmable(c, ch, i);
    StageSets(c, b, i, Intended(ch, i), Target(ch, i));
    hide Recalc, SetRate, Defined, DivOf, Encodable, Intended, Target, Coherent;
  }

  /** Every stage of the chain, in order, gets its intended divider and keeps it
      while the later ones are set. */
  lemma {:induction false} StagesSet(c: ClockTree.Config, t: Tree, ch: Chain, k: nat)
    requires k <= 10 && Coherent(c, t) && GoodRef(t) && AllProgrammable(c, ch)
    requires Bbpll.MIN_FREQ <= ch.rx[0] <= Bbpll.MAX_FREQ && Safe(t, BBPLL_CLK, ch.rx[0])
    ensures DoneTo(c, SetStages(c, t, ch, k), ch, k) && StagesDefined(c, t, ch, k)
  {
    if k == 0 {
      BbpllReached(c, t, ch.rx[0]);
    } else {
      StagesSet(c, t, ch, k - 1);
      StageStep(c, SetStages(c, t, ch, k - 1), ch, k - 1);
    }
    hide Recalc, SetRate, Defined, DivOf, Coherent, AllProgrammable;
  }

  lemma ParentClose(c: ClockTree.Config, b: Tree, ch: Chain, i: Factor)
    requires Coherent(c, b) && Close(b.rates[BBPLL_CLK], ch.rx[0])
    requires AllProgrammable(c, ch)
    requires forall j: Factor :: Position(j) < Position(i) ==> DivOf(j, b.Regs()) == Intended(ch, j)
    ensures Close(b.rates[Parent(i)], Intended(ch, i) * Target(ch, i))
  {
    assert Programmable(c, ch, i);
    if i != ADC_CLK {
      assert Position(Parent(i)) < Position(i);
      TargetsReached(c, b, ch, Parent(i));
    }
  }

  // ---- the solver's chains ----

  lemma ExactRatio(p: nat, d: nat, q: nat)
    requires q > 0 && p == d * q
    ensures p / q == d
  {
    QuotientIs(p, q, d);
  }

  lemma StageOf(p: nat, q: nat)
    requires q > 0
    ensures HalfBand(p, q) ==> (p / q == 1 || p / q == 2) && (p / q) * q == p
    ensures Third(p, q) ==> (p / q == 1 || p / q == 2 || p / q == 3) && (p / q) * q == p
    ensures PllStage(p, q) ==>
              (p / q == 2 || p / q == 4 || p / q == 8 || p / q == 16 || p / q == 32) && (p / q) * q == p
    ensures forall f :: FirStage(p, f, q) ==> p / q == f && (p / q) * q == p
  {
    if p == q { ExactRatio(p, 1, q); }
    if p == 2 * q { ExactRatio(p, 2, q); }
    if p == 3 * q { ExactRatio(p, 3, q); }
    if p == 4 * q { ExactRatio(p, 4, q); }
    if p == 8 * q { ExactRatio(p, 8, q); }
    if p == 16 * q { ExactRatio(p, 16, q); }
    if p == 32 * q { ExactRatio(p, 32, q); }
  }

  /** Every rate of an exact chain is at least 500 kHz: the ADC runs at 25 MHz or
      more and no path divides it by more than 48. */
  lemma ChainFloor(ch: Chain, rate: u32, rxFir: nat, txFir: nat, n: nat)
    requires RxExact(ch, rate, rxFir) && TxExact(ch, rate, txFir) && 1 <= n <= 5
    ensures 500000 <= ch.rx[n] <= 1430000000 && 500000 <= ch.tx[n] <= 1430000000
    ensures ch.rx[n - 1] <= 1430000000 && ch.tx[n - 1] <= 1430000000
  {
    hide HalfBand, Third, FirStage, PllStage;
    StageBounds(ch.rx[1], ch.rx[2]);
    StageBounds(ch.rx[2], ch.rx[3]);
    StageBounds(ch.rx[3], ch.rx[4]);
    StageBounds(ch.rx[4], ch.rx[5]);
    StageBounds(ch.rx[1], ch.tx[1]);
    StageBounds(ch.tx[1], ch.tx[2]);
    StageBounds(ch.tx[2], ch.tx[3]);
    StageBounds(ch.tx[3], ch.tx[4]);
    StageBounds(ch.tx[4], ch.tx[5]);
    assert ch.rx[5] >= 500000 && ch.tx[5] >= 500000;
  }

  lemma StageBounds(p: nat, q: nat)
    ensures HalfBand(p, q) ==> q <= p <= 2 * q
    ensures Third(p, q) ==> q <= p <= 3 * q
    ensures forall f :: FirStage(p, f, q) ==> q <= p <= 4 * q
  {
  }

  /** Which kind of stage each clock is. */
  predicate StageKind(i: Factor, p: nat, q: nat, rxFir: nat, txFir: nat) {
    if i == ADC_CLK then PllStage(p, q)
    else if i == R2_CLK || i == T2_CLK then Third(p, q)
    else if i == RX_SAMPL_CLK then FirStage(p, rxFir, q)
    else if i == TX_SAMPL_CLK then FirStage(p, txFir, q)
    else HalfBand(p, q)
  }

  lemma ExactChainStage(ch: Chain, rate: u32, rxFir: nat, txFir: nat, i: Factor)
    requires RxExact(ch, rate, rxFir) && TxExact(ch, rate, txFir)
    ensures StageKind(i, ParentTarget(ch, i), Target(ch, i), rxFir, txFir)
    ensures Target(ch, i) >= 500000 && ParentTarget(ch, i) <= 1430000000
  {
    ChainFloor(ch, rate, rxFir, txFir, if i <= RX_SAMPL_CLK then i - ADC_CLK + 1 else i - DAC_CLK + 1);
    hide PllStage, Third, FirStage, HalfBand;
  }

  lemma ExactChainIsProgrammable(c: ClockTree.Config, ch: Chain, rate: u32, rxFir: nat, txFir: nat, i: Factor)
    requires RxExact(ch, rate, rxFir) && TxExact(ch, rate, txFir)
    requires (c.bypassRxFir ==> rxFir == 1) && (c.bypassTxFir ==> txFir == 1)
    ensures Programmable(c, ch, i)
  {
    ExactChainStage(ch, rate, rxFir, txFir, i);
    hide RxExact, TxExact, Target, ParentTarget;
    StageOf(ParentTarget(ch, i), Target(ch, i));
    hide PllStage, Third, HalfBand;
  }

  // ---- the main result ----

  /** The total division of a path is at least 12, so the 17 Hz the BBPLL may be
      off shrink to 2 Hz at the sample clock. */
  lemma SampleWithinTwoHz(bbpll: nat, target: nat, ratio: nat, rate: nat)
    requires Close(bbpll, target) && target == ratio * rate && ratio >= 12
    ensures -2 <= bbpll / ratio - rate <= 1
  {
    var e := bbpll - target;
    DivBounds(bbpll, ratio);
    assert ratio * (rate + 2) == target + 2 * ratio && ratio * (rate - 2) == target - 2 * ratio;
    Cancel(ratio, bbpll / ratio, rate + 2);
    Cancel(ratio, rate - 3, bbpll / ratio);
    assert ratio * (rate - 2) <= bbpll;
    Cancel(ratio, rate - 2, bbpll / ratio + 1);
  }

  lemma FiveFloors(b: nat, d1: nat, d2: nat, d3: nat, d4: nat, d5: nat)
    requires d1 > 0 && d2 > 0 && d3 > 0 && d4 > 0 && d5 > 0
    ensures d1 * d2 * d3 * d4 * d5 > 0
    ensures b / d1 / d2 / d3 / d4 / d5 == b / (d1 * d2 * d3 * d4 * d5)
  {
    NestedFloor(b, d1, d2);
    NestedFloor(b, d1 * d2, d3);
    NestedFloor(b, d1 * d2 * d3, d4);
    NestedFloor(b, d1 * d2 * d3 * d4, d5);
  }

  lemma FiveProducts(t0: nat, t1: nat, t2: nat, t3: nat, t4: nat, t5: nat, d1: nat, d2: nat, d3: nat, d4: nat, d5: nat)
    requires t0 == d1 * t1 && t1 == d2 * t2 && t2 == d3 * t3 && t3 == d4 * t4 && t4 == d5 * t5
    ensures t0 == (d1 * d2 * d3 * d4 * d5) * t5
  {
    assert t3 == (d4 * d5) * t5;
    assert t2 == (d3 * (d4 * d5)) * t5;
    assert t1 == (d2 * (d3 * (d4 * d5))) * t5;
    assert t0 == (d1 * (d2 * (d3 * (d4 * d5)))) * t5;
    assert d1 * (d2 * (d3 * (d4 * d5))) == d1 * d2 * d3 * d4 * d5;
  }

  lemma RatioAtLeast12(top: nat, ratio: nat, rate: nat)
    requires top == ratio * rate && top > Bbpll.MIN_FREQ && rate <= MAX_SAMPLE_RATE
    ensures ratio >= 12
  {
    MulMonotone(ratio, rate, MAX_SAMPLE_RATE);
  }

  /** A path of five exact stages reads back within 2 Hz. */
  lemma PathWithinTwoHz(bbpll: nat, t0: nat, t1: nat, t2: nat, t3: nat, t4: nat, rate: nat,
                        d1: nat, d2: nat, d3: nat, d4: nat, d5: nat)
    requires Close(bbpll, t0) && t0 > Bbpll.MIN_FREQ && rate <= MAX_SAMPLE_RATE
    requires t0 == d1 * t1 && t1 == d2 * t2 && t2 == d3 * t3 && t3 == d4 * t4 && t4 == d5 * rate
    requires d1 > 0 && d2 > 0 && d3 > 0 && d4 > 0 && d5 > 0
    ensures -2 <= bbpll / d1 / d2 / d3 / d4 / d5 - rate <= 1
  {
    var ratio := d1 * d2 * d3 * d4 * d5;
    FiveProducts(t0, t1, t2, t3, t4, rate, d1, d2, d3, d4, d5);
    FiveFloors(bbpll, d1, d2, d3, d4, d5);
    RatioAtLeast12(t0, ratio, rate);
    SampleWithinTwoHz(bbpll, t0, ratio, rate);
  }

  /** The same with one more stage below the first. */
  lemma LongPathWithinTwoHz(bbpll: nat, t0: nat, a: nat, t1: nat, t2: nat, t3: nat, t4: nat, rate: nat,
                            d0: nat, d1: nat, d2: nat, d3: nat, d4: nat, d5: nat)
    requires Close(bbpll, t0) && t0 > Bbpll.MIN_FREQ && rate <= MAX_SAMPLE_RATE
    requires t0 == d0 * a && a == d1 * t1 && t1 == d2 * t2 && t2 == d3 * t3 && t3 == d4 * t4 && t4 == d5 * rate
    requires d0 > 0 && d1 > 0 && d2 > 0 && d3 > 0 && d4 > 0 && d5 > 0
    ensures -2 <= bbpll / d0 / d1 / d2 / d3 / d4 / d5 - rate <= 1
  {
    NestedFloor(bbpll, d0, d1);
    assert t0 == (d0 * d1) * t1;
    PathWithinTwoHz(bbpll, t0, t1, t2, t3, t4, rate, d0 * d1, d2, d3, d4, d5);
  }

  /** In a coherent tree a clock is its parent divided by its divider. */
  lemma ClockIsQuotient(c: ClockTree.Config, e: Tree, i: Factor)
    requires Coherent(c, e)
    ensures e.rates[i] == e.rates[Parent(i)] / DivOf(i, e.Regs())
  {
    assert e.rates[i] == Recalc(c, e, i);
  }

  lemma RxSampleRate(c: ClockTree.Config, e: Tree, ch: Chain, rate: u32)
    requires DoneTo(c, e, ch, 10) && AllProgrammable(c, ch) && ch.rx[5] == rate <= MAX_SAMPLE_RATE
    requires ch.rx[0] > Bbpll.MIN_FREQ
    ensures WithinTwoHz(e.rates[RX_SAMPL_CLK], rate)
  {
    assert Programmable(c, ch, ADC_CLK) && Programmable(c, ch, R2_CLK) && Programmable(c, ch, R1_CLK)
      && Programmable(c, ch, CLKRF_CLK) && Programmable(c, ch, RX_SAMPL_CLK);
    ClockIsQuotient(c, e, ADC_CLK);
    ClockIsQuotient(c, e, R2_CLK);
    ClockIsQuotient(c, e, R1_CLK);
    ClockIsQuotient(c, e, CLKRF_CLK);
    ClockIsQuotient(c, e, RX_SAMPL_CLK);
    hide Coherent, Encodable, Intended;
    PathWithinTwoHz(e.rates[BBPLL_CLK], ch.rx[0], ch.rx[1], ch.rx[2], ch.rx[3], ch.rx[4], rate,
                    DivOf(ADC_CLK, e.Regs()), DivOf(R2_CLK, e.Regs()), DivOf(R1_CLK, e.Regs()),
                    DivOf(CLKRF_CLK, e.Regs()), DivOf(RX_SAMPL_CLK, e.Regs()));
    hide DivOf;
  }

  /** The TX path has the DAC as an extra stage below the ADC. */
  lemma TxSampleRate(c: ClockTree.Config, e: Tree, ch: Chain, rate: u32)
    requires DoneTo(c, e, ch, 10) && AllProgrammable(c, ch) && ch.tx[5] == rate <= MAX_SAMPLE_RATE
    requires ch.rx[0] > Bbpll.MIN_FREQ
    ensures WithinTwoHz(e.rates[TX_SAMPL_CLK], rate)
  {
    assert Programmable(c, ch, ADC_CLK) && Programmable(c, ch, DAC_CLK) && Programmable(c, ch, T2_CLK)
      && Programmable(c, ch, T1_CLK) && Programmable(c, ch, CLKTF_CLK) && Programmable(c, ch, TX_SAMPL_CLK);
    ClockIsQuotient(c, e, ADC_CLK);
    ClockIsQuotient(c, e, DAC_CLK);
    ClockIsQuotient(c, e, T2_CLK);
    ClockIsQuotient(c, e, T1_CLK);
    ClockIsQuotient(c, e, CLKTF_CLK);
    ClockIsQuotient(c, e, TX_SAMPL_CLK);
    hide Coherent, Encodable, Intended;
    LongPathWithinTwoHz(e.rates[BBPLL_CLK], ch.rx[0], ch.rx[1], ch.tx[1], ch.tx[2], ch.tx[3], ch.tx[4], rate,
                        DivOf(ADC_CLK, e.Regs()), DivOf(DAC_CLK, e.Regs()), DivOf(T2_CLK, e.Regs()),
                        DivOf(T1_CLK, e.Regs()), DivOf(CLKTF_CLK, e.Regs()), DivOf(TX_SAMPL_CLK, e.Regs()));
    hide DivOf;
  }

  // ---- ad9361_set_trx_clock_chain ----

  /** The explicit filter enables at the end. */
  function EnableFirs(c: ClockTree.Config, f: Interface, r: Regs): Regs {
    var r1 := if f.rxFirDec == 1 || c.bypassRxFir then Store(RX_SAMPL_CLK, r, if c.bypassRxFir then 0 else 1) else r;
    if f.txFirInt == 1 || c.bypassTxFir then Store(TX_SAMPL_CLK, r1, if c.bypassTxFir then 0 else 1) else r1
  }

  function SetTrxClockChain(c: ClockTree.Config, f: Interface, t: Tree, ch: Chain): Result<Tree> {
    if !ChainAccepted(f, ch.rx) then Err
    else
      var e := SetStages(c, t, ch, 10);
      Ok(e.WithRegs(EnableFirs(c, f, e.Regs())))
  }

  predicate EnablesAsIntended(c: ClockTree.Config, f: Interface, ch: Chain) {
    && ((f.rxFirDec == 1 || c.bypassRxFir) ==> Intended(ch, RX_SAMPL_CLK) == 1)
    && ((f.txFirInt == 1 || c.bypassTxFir) ==> Intended(ch, TX_SAMPL_CLK) == 1)
  }

  lemma EnablesKeepDividers(c: ClockTree.Config, f: Interface, r: Regs, ch: Chain, i: Factor)
    requires DivOf(i, r) == Intended(ch, i) && EnablesAsIntended(c, f, ch)
    ensures DivOf(i, EnableFirs(c, f, r)) == Intended(ch, i)
  {
    var rxCode, txCode := if c.bypassRxFir then 0 else 1, if c.bypassTxFir then 0 else 1;
    var r1 := if f.rxFirDec == 1 || c.bypassRxFir then Store(RX_SAMPL_CLK, r, rxCode) else r;
    StoreLaw(RX_SAMPL_CLK, r, rxCode, i);
    StoreLaw(TX_SAMPL_CLK, r1, txCode, i);
    hide Store, Code;
  }

  /** The filter code of a path: zero for a bypassed filter, and else one more than the
      logarithm of its factor. */
  function FirCode(bypass: bool, factor: nat): nat {
    if bypass then 0 else if factor <= 2 then factor else 3
  }

  /** Both filters are as configured. A factor of one does not tell a filter from none,
      and a clock that has its rate already is not set again: hence the enables. */
  predicate FiltersSet(c: ClockTree.Config, f: Interface, r: Regs) {
    && Code(RX_SAMPL_CLK, r) == FirCode(c.bypassRxFir, f.rxFirDec)
    && Code(TX_SAMPL_CLK, r) == FirCode(c.bypassTxFir, f.txFirInt)
  }

  lemma CodeOfFactor(i: Factor, r: Regs)
    requires IsSample(i)
    ensures DivOf(i, r) == 2 ==> Code(i, r) == 2
    ensures DivOf(i, r) == 4 ==> Code(i, r) == 3
  {
    var code := Code(i, r);
    CodeIsSmall(i, r);
    hide Code;
    assert Pow2(2) == 4;
    assert code == 0 || code == 1 || code == 2 || code == 3;
  }

  lemma CodeIsSmall(i: Factor, r: Regs)
    requires IsSample(i)
    ensures Code(i, r) <= 3
  {
    Width(i);
    ExtractedBound(r[FieldOf(i).reg], FieldOf(i).mask, FieldOf(i).off, Limit(i));
  }

  /** The enables turn each filter on or off as configured. */
  lemma EnablesSetFilters(c: ClockTree.Config, f: Interface, r: Regs)
    requires FirFactor(RxFactor(c, f)) && FirFactor(TxFactor(c, f))
    requires DivOf(RX_SAMPL_CLK, r) == RxFactor(c, f) && DivOf(TX_SAMPL_CLK, r) == TxFactor(c, f)
    ensures FiltersSet(c, f, EnableFirs(c, f, r))
  {
    CodeOfFactor(RX_SAMPL_CLK, r);
    CodeOfFactor(TX_SAMPL_CLK, r);
    var rxCode, txCode := if c.bypassRxFir then 0 else 1, if c.bypassTxFir then 0 else 1;
    var r1 := if f.rxFirDec == 1 || c.bypassRxFir then Store(RX_SAMPL_CLK, r, rxCode) else r;
    StoreLaw(RX_SAMPL_CLK, r, rxCode, RX_SAMPL_CLK);
    StoreLaw(RX_SAMPL_CLK, r, rxCode, TX_SAMPL_CLK);
    StoreLaw(TX_SAMPL_CLK, r1, txCode, RX_SAMPL_CLK);
    StoreLaw(TX_SAMPL_CLK, r1, txCode, TX_SAMPL_CLK);
    hide Store, Code, DivOf;
  }

  /** The FIR factors the solver uses: a bypassed filter counts as one. */
  function RxFactor(c: ClockTree.Config, f: Interface): nat { if c.bypassRxFir then 1 else f.rxFirDec }

  function TxFactor(c: ClockTree.Config, f: Interface): nat { if c.bypassTxFir then 1 else f.txFirInt }

  predicate WithinTwoHz(x: int, rate: int) { -2 <= x - rate <= 1 }

  /** Tree e has the dividers of the chain and sample clocks within 2 Hz of the rate. */
  predicate Reached(e: Tree, ch: Chain, rate: u32) {
    && (forall i: Factor :: DivOf(i, e.Regs()) == Intended(ch, i))
    && (forall i: Factor :: Intended(ch, i) * Target(ch, i) == ParentTarget(ch, i))
    && Close(e.rates[BBPLL_CLK], ch.rx[0])
    && WithinTwoHz(e.rates[RX_SAMPL_CLK], rate) && WithinTwoHz(e.rates[TX_SAMPL_CLK], rate)
  }

  lemma StagesReach(c: ClockTree.Config, e: Tree, ch: Chain, rate: u32)
    requires DoneTo(c, e, ch, 10) && AllProgrammable(c, ch) && ch.rx[5] == ch.tx[5] == rate <= MAX_SAMPLE_RATE
    requires ch.rx[0] > Bbpll.MIN_FREQ
    ensures Reached(e, ch, rate)
  {
    RxSampleRate(c, e, ch, rate);
    TxSampleRate(c, e, ch, rate);
    hide Coherent, DivOf, Intended, Encodable;
    forall i: Factor ensures Intended(ch, i) * Target(ch, i) == ParentTarget(ch, i) {
      assert Programmable(c, ch, i);
    }
  }

  lemma EnablesKeepReached(c: ClockTree.Config, f: Interface, e: Tree, ch: Chain, rate: u32)
    requires Reached(e, ch, rate) && EnablesAsIntended(c, f, ch)
    ensures Reached(e.WithRegs(EnableFirs(c, f, e.Regs())), ch, rate)
  {
    forall i: Factor ensures DivOf(i, EnableFirs(c, f, e.Regs())) == Intended(ch, i) {
      EnablesKeepDividers(c, f, e.Regs(), ch, i);
    }
    hide EnableFirs, DivOf, Intended;
  }

  /** They keep the cache right as well: only the two filter registers are written,
      and no divider changes. */
  lemma EnablesKeepCoherent(c: ClockTree.Config, f: Interface, e: Tree, ch: Chain)
    requires Coherent(c, e) && EnablesAsIntended(c, f, ch)
    requires forall i: Factor :: DivOf(i, e.Regs()) == Intended(ch, i)
    ensures Coherent(c, e.WithRegs(EnableFirs(c, f, e.Regs())))
  {
    var r := EnableFirs(c, f, e.Regs());
    EnablesTouch(c, f, e.Regs());
    forall i: Factor ensures DivOf(i, r) == DivOf(i, e.Regs()) {
      EnablesKeepDividers(c, f, e.Regs(), ch, i);
    }
    hide EnableFirs, EnablesAsIntended, Intended, DivOf;
    SameDividersSameRates(c, e, e.WithRegs(r));
  }

  lemma EnablesTouch(c: ClockTree.Config, f: Interface, r: Regs)
    ensures forall x :: 0 <= x < SIZE && x != 0x002 && x != 0x003 ==> EnableFirs(c, f, r)[x] == r[x]
  {
    hide Merged, ToByte;
  }

  lemma SameDividersSameRates(c: ClockTree.Config, t: Tree, e: Tree)
    requires Coherent(c, t) && e == t.WithRegs(e.Regs())
    requires forall x :: 0 <= x < SIZE && x != 0x002 && x != 0x003 ==> e.Regs()[x] == t.Regs()[x]
    requires forall i: Factor :: DivOf(i, e.Regs()) == DivOf(i, t.Regs())
    ensures Coherent(c, e)
  {
    assert IsClock(0x002) && IsClock(0x003);
    TuningRegsSame(t, e);
    forall i | 0 <= i < NUM_CLKS ensures e.rates[i] == Recalc(c, e, i) {
      assert t.rates[i] == Recalc(c, t, i);
      hide DivOf, LO.Reported, Extracted, FromByte, Bbpll.RateOf;
    }
  }

  lemma AcceptedChainIsReached(c: ClockTree.Config, f: Interface, t: Tree, ch: Chain, rate: u32)
    requires Coherent(c, t) && GoodRef(t) && ChainAccepted(f, ch.rx) && Safe(t, BBPLL_CLK, ch.rx[0])
    requires RxExact(ch, rate, RxFactor(c, f)) && TxExact(ch, rate, TxFactor(c, f)) && rate <= MAX_SAMPLE_RATE
    ensures StagesDefined(c, t, ch, 10) && Coherent(c, SetTrxClockChain(c, f, t, ch).value)
    ensures Reached(SetTrxClockChain(c, f, t, ch).value, ch, rate)
    ensures FiltersSet(c, f, SetTrxClockChain(c, f, t, ch).value.Regs())
  {
    forall i: Factor ensures Programmable(c, ch, i) {
      ExactChainIsProgrammable(c, ch, rate, RxFactor(c, f), TxFactor(c, f), i);
    }
    StagesSet(c, t, ch, 10);
    FirStagesIntended(c, f, ch, rate);
    hide SetStages, Coherent, EnableFirs, Programmable, Reached, EnablesAsIntended, ChainAccepted, FiltersSet, Intended;
    StagesReach(c, SetStages(c, t, ch, 10), ch, rate);
    EnablesKeepCoherent(c, f, SetStages(c, t, ch, 10), ch);
    EnablesKeepReached(c, f, SetStages(c, t, ch, 10), ch, rate);
    FiltersOf(c, f, SetStages(c, t, ch, 10), ch, rate);
  }

  lemma FiltersOf(c: ClockTree.Config, f: Interface, e: Tree, ch: Chain, rate: u32)
    requires Reached(e, ch, rate) && FirFactor(RxFactor(c, f)) && FirFactor(TxFactor(c, f))
    requires Intended(ch, RX_SAMPL_CLK) == RxFactor(c, f) && Intended(ch, TX_SAMPL_CLK) == TxFactor(c, f)
    ensures FiltersSet(c, f, EnableFirs(c, f, e.Regs()))
  {
    hide EnableFirs, FiltersSet, DivOf, Intended;
    EnablesSetFilters(c, f, e.Regs());
  }

  /** Which sample rates the driver takes: a chain of the solver is accepted exactly
      when the first feasible row of the table fits the interface. */
  lemma DriverAccepts(c: ClockTree.Config, f: Interface, t: Tree, rate: u32, gov: nat, ch: Chain, i: nat)
    requires FirFactor(RxFactor(c, f)) && RxFactor(c, f) == TxFactor(c, f)
    requires Solve(rate, gov, RxFactor(c, f), TxFactor(c, f), false) == Ok(ch)
    requires FirstFeasible(rate * RxFactor(c, f), StartRow(rate * RxFactor(c, f), gov), i)
    ensures i < 7
    ensures SetTrxClockChain(c, f, t, ch).Ok? <==>
              InterfaceFits(f, rate, ROWS[i].osr * RxFactor(c, f), ROWS[i].d2)
  {
    hide Solve, SetStages, EnableFirs, ChainAccepted, InterfaceFits, FirstFeasible, StartRow;
    SolvedIsAccepted(f, rate, gov, RxFactor(c, f), ch, i);
  }

  /** End to end: if the solver finds a chain for a sample rate and the first feasible
      row fits the interface, then whatever the tree was set to before, the driver
      takes the rate, every divider ends up as the solver intended, both filters are as
      configured, the cache is coherent, and both sample clocks read back within 2 Hz
      of the request. */
  lemma SampleRateIsReached(c: ClockTree.Config, f: Interface, t: Tree, rate: u32, gov: nat, ch: Chain, i: nat)
    requires Coherent(c, t) && GoodRef(t)
    requires FirFactor(RxFactor(c, f)) && RxFactor(c, f) == TxFactor(c, f)
    requires Solve(rate, gov, RxFactor(c, f), TxFactor(c, f), false) == Ok(ch)
    requires i < 7 && FirstFeasible(rate * RxFactor(c, f), StartRow(rate * RxFactor(c, f), gov), i)
    requires InterfaceFits(f, rate, ROWS[i].osr * RxFactor(c, f), ROWS[i].d2) && Safe(t, BBPLL_CLK, ch.rx[0])
    ensures StagesDefined(c, t, ch, 10) && SetTrxClockChain(c, f, t, ch).Ok?
    ensures Coherent(c, SetTrxClockChain(c, f, t, ch).value)
    ensures Reached(SetTrxClockChain(c, f, t, ch).value, ch, rate)
    ensures FiltersSet(c, f, SetTrxClockChain(c, f, t, ch).value.Regs())
  {
    SolutionsAreExact(rate, gov, RxFactor(c, f), TxFactor(c, f));
    RateLimit(rate, gov, RxFactor(c, f), TxFactor(c, f));
    hide Solve, Reached, FiltersSet, SetTrxClockChain, RxExact, TxExact;
    hide ChainAccepted, InterfaceFits, FirstFeasible, StartRow;
    DriverAccepts(c, f, t, rate, gov, ch, i);
    SolvedIsAccepted(f, rate, gov, RxFactor(c, f), ch, i);
    AcceptedChainIsReached(c, f, t, ch, rate);
  }

  /** The chain of 30.72 MHz: the ADC at twelve times the rate, the DAC at half of that. */
  const CHAIN_30_72 :=
    Chain([737280000, 368640000, 122880000, 61440000, 30720000, 30720000],
          [737280000, 184320000, 61440000, 61440000, 30720000, 30720000])

  /** An instance: 30.72 MHz over LVDS with both channels and no FIR factor, on a
      device that comes up with a BBPLL of 400 MHz from 40 MHz. */
  lemma InstanceExists(c: ClockTree.Config, f: Interface, t: Tree, rxSynth: u32, txSynth: u32)
    requires c.refin == 40000000 && f.rx2tx2 && f.lvds && RxFactor(c, f) == TxFactor(c, f) == 1
    ensures var s := Registered(c, At400MHz(t), rxSynth, txSynth);
            && Coherent(c, s) && GoodRef(s) && Safe(s, BBPLL_CLK, CHAIN_30_72.rx[0])
            && Solve(30720000, 0, 1, 1, false) == Ok(CHAIN_30_72)
            && FirstFeasible(30720000, StartRow(30720000, 0), 0)
            && InterfaceFits(f, 30720000, ROWS[0].osr, ROWS[0].d2)
            && SetTrxClockChain(c, f, s, CHAIN_30_72).Ok?
            && Reached(SetTrxClockChain(c, f, s, CHAIN_30_72).value, CHAIN_30_72, 30720000)
  {
    hide Registered, Reached, SetTrxClockChain, Solve, StagesDefined, Coherent, ChainAccepted;
    var s := Registered(c, At400MHz(t), rxSynth, txSynth);
    RestartLosesCoherence(c, t, rxSynth, txSynth);
    ReferenceIs(c, At400MHz(t), rxSynth, txSynth);
    SolvedAt30Point72();
    FitsAt30Point72(f);
    hide FirstFeasible, StartRow, InterfaceFits;
    SampleRateIsReached(c, f, s, 30720000, 0, CHAIN_30_72, 0);
  }

  lemma ReferenceIs(c: ClockTree.Config, t: Tree, rxSynth: u32, txSynth: u32)
    requires c.refin == 40000000 && t.Regs()[0x045] == 0
    ensures Registered(c, t, rxSynth, txSynth).rates[BB_REFCLK] == 40000000
  {
    var s := Registered(c, t, rxSynth, txSynth);
    RegistrationIsCoherent(c, t, rxSynth, txSynth);
    RefreshQuiet(c, t.WithRate(RX_RFPLL_DUMMY, rxSynth).WithRate(TX_RFPLL_DUMMY, txSynth), NUM_CLKS);
    assert s.rates[BB_REFCLK] == Recalc(c, s, BB_REFCLK) && IsClock(0x045);
    hide Refresh;
  }

  lemma SolvedAt30Point72()
    ensures Solve(30720000, 0, 1, 1, false) == Ok(CHAIN_30_72)
  {
    assert FirstInRange(30720000, 0) == 0;
    assert BbpllRate(368640000, 64) == BbpllRate(368640000, 16) == 737280000;
    RowStages(30720000, 0, 368640000);
    RowStages(30720000, 2, 184320000);
  }

  lemma FitsAt30Point72(f: Interface)
    requires f.rx2tx2 && f.lvds
    ensures FirstFeasible(30720000, StartRow(30720000, 0), 0)
    ensures InterfaceFits(f, 30720000, ROWS[0].osr, ROWS[0].d2)
  {
  }

  lemma RateLimit(rate: u32, gov: nat, rxFir: nat, txFir: nat)
    requires FirFactor(rxFir) && FirFactor(txFir)
    ensures Solve(rate, gov, rxFir, txFir, false).Ok? ==> rate <= MAX_SAMPLE_RATE
  {
  }

  lemma FirStagesIntended(c: ClockTree.Config, f: Interface, ch: Chain, rate: u32)
    requires RxExact(ch, rate, RxFactor(c, f)) && TxExact(ch, rate, TxFactor(c, f))
    ensures EnablesAsIntended(c, f, ch)
    ensures Intended(ch, RX_SAMPL_CLK) == RxFactor(c, f) && Intended(ch, TX_SAMPL_CLK) == TxFactor(c, f)
  {
    ChainFloor(ch, rate, RxFactor(c, f), TxFactor(c, f), 5);
    StageOf(ch.rx[4], ch.rx[5]);
    StageOf(ch.tx[4], ch.tx[5]);
    assert FirStage(ch.rx[4], RxFactor(c, f), ch.rx[5]) && FirStage(ch.tx[4], TxFactor(c, f), ch.tx[5]);
  }
}
