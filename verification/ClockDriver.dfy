/** The clock driver of util.c and ad9361.c, as it updates the cached rates and
    the device in place. */
module ClockDriver {
  import opened CTypes
  import opened Dividers
  import opened ClockTree
  import opened Coherence
  import opened DataClock
  import ClockChain
  import EndToEnd
  import LoDriver
  import LO = LocalOscillator
  import Bbpll

  /** clk_get_rate: the internal synthesisers fall through to their cached rate. */
  function GetRate(c: Config, t: Tree, source: nat): u32
    requires source < NUM_CLKS
  {
    if source == RX_RFPLL_INT || source == TX_RFPLL_INT then t.rates[source] else Recalc(c, t, source)
  }

  class Clocks {
    const config: Config
    const phy: LoDriver.Phy
    var rates: Rates
    var bbpllInitialized: bool

    constructor (config: Config, phy: LoDriver.Phy)
      ensures this.config == config && this.phy == phy && !bbpllInitialized
    {
      this.config, this.phy, bbpllInitialized := config, phy, false;
      rates := seq(NUM_CLKS, _ => 0);
    }

    function State(): Tree
      reads this, phy
    {
      Tree(phy.State(), rates, bbpllInitialized)
    }

    /** The recalculation functions: the rate, and what reading it does to the device. */
    method Recalculate(source: nat)
      requires source < NUM_CLKS
      modifies this, phy
      ensures State() == RefreshOne(config, old(State()), source)
    {
      var t := State();
      rates := rates[source := Recalc(config, t, source)];
      phy.dev := RecalcEffect(config, t, source);
    }

    /** clk_get_rate: with a coherent cache it returns the cached rate, and leaves the
        cache, the synthesiser and clock registers and the profiles as they are. */
    method ClkGetRate(source: nat) returns (rate: u32)
      requires source < NUM_CLKS
      modifies phy
      ensures rate == GetRate(config, old(State()), source)
      ensures State() == old(State()).(lo := old(State()).lo.(dev := RecalcEffect(config, old(State()), source)))
      ensures SameSetting(old(State()), State())
      ensures Coherent(config, old(State())) ==> rate == old(rates)[source] && Coherent(config, State())
    {
      ReadingKeepsCoherent(config, State(), source);
      hide GetRate, RecalcEffect, SameSetting;
      rate := GetRate(config, State(), source);
      phy.dev := RecalcEffect(config, State(), source);
    }

    /** The loops at the end of clk_set_rate, one per kind of clock. */
    method RefreshAll()
      modifies this, phy
      ensures State() == Refresh(config, old(State()), NUM_CLKS)
    {
      hide RefreshOne;
      ghost var t := State();
      for i := BB_REFCLK to BBPLL_CLK
        invariant State() == Refresh(config, t, i)
      {
        Recalculate(i);
      }
      Recalculate(BBPLL_CLK);
      for i := ADC_CLK to RX_RFPLL_INT
        invariant State() == Refresh(config, t, i)
      {
        Recalculate(i);
      }
      for i := RX_RFPLL_INT to RX_RFPLL_DUMMY
        invariant State() == Refresh(config, t, i)
      {
        Recalculate(i);
      }
      for i := RX_RFPLL_DUMMY to RX_RFPLL
        invariant State() == Refresh(config, t, i)
      {
        Recalculate(i);
      }
      for i := RX_RFPLL to NUM_CLKS
        invariant State() == Refresh(config, t, i)
      {
        Recalculate(i);
      }
    }

    /** Rounding and programming a divider clock from its parent rate. */
    method SetFactorRate(source: nat, rate: u32, prate: u32)
      requires (source < 3 || ADC_CLK <= source <= TX_SAMPL_CLK) && rate > 0 && prate > 0
      modifies phy
      ensures phy.State().rx == old(phy.State().rx) && phy.State().tx == old(phy.State().tx)
      ensures phy.dev == old(phy.dev).(regs := SetFactor(config, source, old(phy.dev).regs,
                                                         RoundFactor(config, source, rate, prate), prate))
    {
      var round := RoundFactor(config, source, rate, prate);
      phy.dev := phy.dev.(regs := SetFactor(config, source, phy.dev.regs, round, prate));
    }

    /** Rounding and programming the BBPLL. */
    method SetBbpllRate(rate: u32)
      requires rates[BB_REFCLK] >= 128
      modifies this`bbpllInitialized, phy
      ensures State() == Apply(config, old(State()), BBPLL_CLK, rate)
    {
      var parent := rates[BB_REFCLK];
      var round := Bbpll.RoundRate(rate, parent) % TWO32;
      phy.dev := phy.dev.(regs := SetBbpll(phy.dev.regs, round, parent));
      bbpllInitialized := true;
    }

    method SetIntRate(isTx: bool, rate: u32)
      requires phy.config == config.lo && rates[RX_REFCLK] > 0 && rates[TX_REFCLK] > 0
      modifies phy
      ensures State() == SetInt(config, old(State()), isTx, rate)
    {
      hide LO.SetLo;
      var _ := phy.RfpllIntSetRate(isTx, rate, rates[if isTx then TX_REFCLK else RX_REFCLK]);
    }

    /** ad9361_rfpll_set_rate behind the rounding of ad9361_rfpll_round_rate. */
    method SetRfpllRate(source: nat, rate: u32)
      requires (source == RX_RFPLL || source == TX_RFPLL) && Defined(config, State(), source, rate)
      requires phy.config == config.lo
      modifies this`rates, phy
      ensures State() == Apply(config, old(State()), source, rate)
    {
      hide LO.SetLo, RoundLo;
      var round := if config.useExtTxLo then rate else RoundLo(rate);
      if source == RX_RFPLL {
        if config.useExtRxLo {
          rates := rates[RX_RFPLL_DUMMY := round];
        } else {
          SetIntRate(false, round);
        }
      } else if config.useExtTxLo {
        rates := rates[TX_RFPLL_DUMMY := round];
      } else {
        SetIntRate(true, round);
      }
    }

    /** The switch of clk_set_rate. */
    method SetSource(source: nat, rate: u32)
      requires Defined(config, State(), source, rate) && phy.config == config.lo
      modifies this, phy
      ensures State() == Apply(config, old(State()), source, rate)
    {
      hide SetFactor, RoundFactor, SetInt, RoundLo, SetBbpll;
      if source < 3 {
        SetFactorRate(source, rate, config.refin);
      } else if source == BBPLL_CLK {
        SetBbpllRate(rate);
      } else if source <= TX_SAMPL_CLK {
        SetFactorRate(source, rate, rates[Parent(source)]);
      } else if source == RX_RFPLL_INT || source == TX_RFPLL_INT {
        SetIntRate(source == TX_RFPLL_INT, RoundLo(rate));
      } else if source == RX_RFPLL_DUMMY || source == TX_RFPLL_DUMMY {
        rates := rates[source := rate];
        // the case runs on into the next one, where a dummy clock has rate zero
        rates := rates[source := 0];
      } else {
        SetRfpllRate(source, rate);
      }
    }

    method ClkSetRate(source: nat, rate: u32)
      requires Defined(config, State(), source, rate) && phy.config == config.lo
      modifies this, phy
      ensures State() == SetRate(config, old(State()), source, rate)
      ensures old(rates)[source] != rate ==> Coherent(config, State())
    {
      hide Apply, RefreshOne, Refresh, Recalc;
      SetRateCoherence(config, State(), source, rate);
      if rates[source] != rate {
        SetSource(source, rate);
        Recalculate(source);
        RefreshAll();
      } else if source == BBPLL_CLK && !bbpllInitialized {
        SetSource(source, rate);
        Recalculate(source);
      }
    }

    /** register_clocks: each clock after the one it is derived from. */
    method RegisterClocks(rxSynth: u32, txSynth: u32)
      modifies this, phy
      ensures State() == Registered(config, old(State()), rxSynth, txSynth)
      ensures Coherent(config, State())
    {
      ghost var t := old(State()).WithRate(RX_RFPLL_DUMMY, rxSynth).WithRate(TX_RFPLL_DUMMY, txSynth);
      RegistrationIsCoherent(config, State(), rxSynth, txSynth);
      rates := rates[RX_RFPLL_DUMMY := rxSynth][TX_RFPLL_DUMMY := txSynth];
      Recalculate(TX_REFCLK);
      Recalculate(RX_REFCLK);
      Recalculate(BB_REFCLK);
      assert State() == Refresh(config, t, BBPLL_CLK) by { ReferencesInAnyOrder(config, t); }
      hide RefreshOne;
      for i := BBPLL_CLK to NUM_CLKS
        invariant State() == Refresh(config, t, i)
      {
        Recalculate(i);
      }
    }

    /** The clk_set_rate calls of ad9361_set_trx_clock_chain: the BBPLL, then the
        RX and TX stages alternating downwards. */
    method SetChain(rxPathClks: ClockChain.Rates, txPathClks: ClockChain.Rates)
      requires phy.config == config.lo
      requires EndToEnd.StagesDefined(config, State(), ClockChain.Chain(rxPathClks, txPathClks), 10)
      modifies this, phy
      ensures State() == EndToEnd.SetStages(config, old(State()), ClockChain.Chain(rxPathClks, txPathClks), 10)
    {
      hide SetRate, Defined, EndToEnd.StagesDefined, Coherent, LoDriver.Phy.State, ClockTree.Tree.Regs;
      ghost var t, ch := State(), ClockChain.Chain(rxPathClks, txPathClks);
      EndToEnd.DefinedSoFar(config, t, ch, 10);
      ClkSetRate(BBPLL_CLK, rxPathClks[0]);
      var i, j, n := ADC_CLK, DAC_CLK, 1;
      while i <= RX_SAMPL_CLK
        invariant 1 <= n <= 6 && i == ADC_CLK + n - 1 && j == DAC_CLK + n - 1
        invariant State() == EndToEnd.SetStages(config, t, ch, 2 * (n - 1))
        decreases RX_SAMPL_CLK - i
      {
        assert EndToEnd.Stage(2 * (n - 1)) == i && EndToEnd.Stage(2 * (n - 1) + 1) == j;
        ClkSetRate(i, rxPathClks[n]);
        ClkSetRate(j, txPathClks[n]);
        i, j, n := i + 1, j + 1, n + 1;
      }
    }

    /** ad9361_set_trx_clock_chain */
    method SetTrxClockChain(f: Interface, rxPathClks: ClockChain.Rates, txPathClks: ClockChain.Rates)
      returns (ok: bool)
      requires phy.config == config.lo
      requires EndToEnd.StagesDefined(config, State(), ClockChain.Chain(rxPathClks, txPathClks), 10)
      modifies this, phy
      ensures ok == ChainAccepted(f, rxPathClks)
      ensures ok ==> EndToEnd.SetTrxClockChain(config, f, old(State()), ClockChain.Chain(rxPathClks, txPathClks))
                     == Ok(State())
      ensures !ok ==> State() == old(State())
    {
      if !ChainAccepted(f, rxPathClks) {
        return false;
      }
      SetChain(rxPathClks, txPathClks);
      hide EndToEnd.SetStages, ChainAccepted, Dividers.Store;
      if f.rxFirDec == 1 || config.bypassRxFir {
        phy.dev := phy.dev.(regs := Store(RX_SAMPL_CLK, phy.dev.regs, if config.bypassRxFir then 0 else 1));
      }
      if f.txFirInt == 1 || config.bypassTxFir {
        phy.dev := phy.dev.(regs := Store(TX_SAMPL_CLK, phy.dev.regs, if config.bypassTxFir then 0 else 1));
      }
      ok := true;
    }
  }

  /** The reference clocks do not depend on one another. */
  lemma ReferencesInAnyOrder(c: Config, t: Tree)
    ensures RefreshOne(c, RefreshOne(c, RefreshOne(c, t, TX_REFCLK), RX_REFCLK), BB_REFCLK) == Refresh(c, t, BBPLL_CLK)
  {
    hide RefRate, RefCode;
    assert Refresh(c, t, 1) == RefreshOne(c, t, 0);
    assert Refresh(c, t, 2) == RefreshOne(c, Refresh(c, t, 1), 1);
    assert Refresh(c, t, 3) == RefreshOne(c, Refresh(c, t, 2), 2);
  }

  /** In a coherent tree clk_get_rate returns the cached rate of every clock. */
  lemma GetRateIsCached(c: Config, t: Tree, source: nat)
    requires source < NUM_CLKS && Coherent(c, t)
    ensures GetRate(c, t, source) == t.rates[source]
  {
  }

  /** Reading a rate leaves every rate as it is. */
  lemma ReadingKeepsCoherent(c: Config, t: Tree, source: nat)
    requires source < NUM_CLKS
    ensures var e := t.(lo := t.lo.(dev := RecalcEffect(c, t, source)));
            SameSetting(t, e) && (Coherent(c, t) ==> GetRate(c, t, source) == t.rates[source] && Coherent(c, e))
  {
    var e := t.(lo := t.lo.(dev := RecalcEffect(c, t, source)));
    RefreshOneQuiet(c, t, source);
    assert e.lo == RefreshOne(c, t, source).lo;
    hide RecalcEffect, Recalc, GetRate;
    if Coherent(c, t) {
      GetRateIsCached(c, t, source);
      forall i | 0 <= i < NUM_CLKS ensures e.rates[i] == Recalc(c, e, i) {
        RecalcDepends(c, t, e, i);
      }
    }
  }
}
