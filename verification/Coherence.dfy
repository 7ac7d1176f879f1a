/** The cache of the clock tree agrees with the registers over whole runs. */
module Coherence {
  import opened CTypes
  import opened Bytes
  import opened Registers
  import opened Device
  import opened Dividers
  import opened ClockTree
  import Bbpll
  import LO = LocalOscillator
  import Synth
  import Rfpll

  /** Only fast-lock addressing differs between the two devices. */
  predicate SameSetting(t: Tree, e: Tree) {
    Quiet(t.lo.dev, e.lo.dev) && e.lo.rx == t.lo.rx && e.lo.tx == t.lo.tx
  }

  lemma ReportedSame(t: Tree, e: Tree, isTx: bool, parent: nat)
    requires SameSetting(t, e)
    ensures LO.Reported(t.lo, isTx, parent) == LO.Reported(e.lo, isTx, parent)
  {
    Synth.QuietKeepsWords(t.lo.dev, e.lo.dev, isTx);
    hide Synth.FractOf, Synth.IntegerOf, ReadF;
  }

  lemma DivSame(r: Regs, s: Regs, i: Factor)
    requires r[0x002] == s[0x002] && r[0x003] == s[0x003] && r[0x00A] == s[0x00A]
    ensures DivOf(i, r) == DivOf(i, s)
  {
    hide Decode, Extracted;
  }

  /** The rate of clock i only depends on the setting and on the rates before it. */
  lemma RecalcDepends(c: Config, t: Tree, e: Tree, i: nat)
    requires i < NUM_CLKS && SameSetting(t, e)
    requires forall j :: 0 <= j < i ==> t.rates[j] == e.rates[j]
    requires i == RX_RFPLL_DUMMY || i == TX_RFPLL_DUMMY ==> t.rates[i] == e.rates[i]
    ensures Recalc(c, t, i) == Recalc(c, e, i)
  {
    var r, s := t.Regs(), e.Regs();
    assert IsClock(0x002) && IsClock(0x003) && IsClock(0x00A) && IsClock(0x041) && IsClock(0x042) && IsClock(0x043)
      && IsClock(0x044) && IsClock(0x045) && IsClock(0x2AB) && IsClock(0x2AC);
    if 3 < i <= TX_SAMPL_CLK {
      DivSame(r, s, i);
    } else if i > TX_SAMPL_CLK {
      ReportedSame(t, e, false, t.rates[RX_REFCLK]);
      ReportedSame(t, e, true, t.rates[TX_REFCLK]);
    }
    hide DivOf, LO.Reported, Extracted, FromByte, Bbpll.RateOf;
  }

  lemma RefreshOneQuiet(c: Config, t: Tree, i: nat)
    requires i < NUM_CLKS
    ensures SameSetting(t, RefreshOne(c, t, i)) && RefreshOne(c, t, i).bbpllInitialized == t.bbpllInitialized
  {
    hide Recalc;
  }

  lemma QuietTransitive(a: Tree, b: Tree, e: Tree)
    requires SameSetting(a, b) && SameSetting(b, e)
    ensures SameSetting(a, e)
  {
  }

  lemma {:induction false} RefreshQuiet(c: Config, t: Tree, n: nat)
    requires n <= NUM_CLKS
    ensures SameSetting(t, Refresh(c, t, n)) && Refresh(c, t, n).bbpllInitialized == t.bbpllInitialized
  {
    if n > 0 {
      RefreshQuiet(c, t, n - 1);
      RefreshOneQuiet(c, Refresh(c, t, n - 1), n - 1);
      QuietTransitive(t, Refresh(c, t, n - 1), Refresh(c, t, n));
    }
  }

  predicate CoherentTo(c: Config, t: Tree, n: nat)
    requires n <= NUM_CLKS
  {
    forall i :: 0 <= i < n ==> t.rates[i] == Recalc(c, t, i)
  }

  /** The refresh loops visit parents first, so each clock they have passed stays
      right: from any prior cache they end with a coherent one. */
  lemma {:induction false} RefreshIsCoherent(c: Config, t: Tree, n: nat)
    requires n <= NUM_CLKS
    ensures CoherentTo(c, Refresh(c, t, n), n)
  {
    if n > 0 {
      RefreshIsCoherent(c, t, n - 1);
      var a, b := Refresh(c, t, n - 1), Refresh(c, t, n);
      RefreshOneQuiet(c, a, n - 1);
      assert b == RefreshOne(c, a, n - 1);
      hide Recalc, Refresh, RecalcEffect;
      forall i | 0 <= i < n ensures b.rates[i] == Recalc(c, b, i) {
        RecalcDepends(c, a, b, i);
      }
    }
  }

  // ---- one clk_set_rate ----

  /** The branch taken when the cached rate already equals the request but the
      BBPLL has not been started. */
  predicate StartsBbpll(t: Tree, source: nat, rate: u32) {
    source == BBPLL_CLK && t.rates[BBPLL_CLK] == rate && !t.bbpllInitialized
  }

  /** A reference for which every BBPLL rate has an integer word of one byte and
      survives being programmed again. */
  predicate BbRef(parent: nat) { 5585938 <= parent && parent / 2 >= Bbpll.MODULUS - 1 }

  /** No register outside the BBPLL block changes. */
  predicate OutsideBbpllSame(r: Regs, s: Regs) {
    && s[0x002] == r[0x002] && s[0x003] == r[0x003] && s[0x00A] == r[0x00A]
    && s[0x045] == r[0x045] && s[0x2AB] == r[0x2AB] && s[0x2AC] == r[0x2AC]
    && (forall x :: 0 <= x < SIZE && !IsClock(x) ==> s[x] == r[x])
  }

  lemma BbpllFrame(r: Regs, rate: u32, parent: u32)
    requires parent >= 128
    ensures OutsideBbpllSame(r, SetBbpll(r, rate, parent))
  {
    hide ToByte, Bbpll.FractWord, Bbpll.IntegerWord, ChargePump;
  }

  lemma BbpllWords(r: Regs, rate: u32, parent: u32)
    requires parent >= 128
    ensures BbpllInteger(SetBbpll(r, rate, parent)) == Bbpll.IntegerWord(rate, parent) % 256
    ensures BbpllFract(SetBbpll(r, rate, parent)) == Bbpll.FractWord(rate, parent)
  {
    var fract := Bbpll.FractWord(rate, parent);
    Bbpll.FractWithinModulus(rate, parent);
    ByteRoundTrip(Bbpll.IntegerWord(rate, parent));
    ByteRoundTrip(fract);
    ByteRoundTrip(fract / 0x100);
    ByteRoundTrip(fract / 0x1_0000);
    hide ToByte, FromByte, Bbpll.FractWord, Bbpll.IntegerWord, ChargePump;
    ThreeBytes(fract);
  }

  lemma ThreeBytes(x: nat)
    requires x < 0x100_0000
    ensures x / 0x1_0000 % 256 * 0x1_0000 + x / 0x100 % 256 * 0x100 + x % 256 == x
  {
  }

  lemma IntegerFits(rate: u32, parent: u32)
    requires BbRef(parent) && rate <= Bbpll.MAX_FREQ + 100
    ensures Bbpll.IntegerWord(rate, parent) < 256
  {
    var i := Bbpll.IntegerWord(rate, parent);
    DivBounds(rate, parent);
    MulMonotone(i, 5585938, parent);
  }

  lemma SameWords(integer: nat, fract: nat, rate: u32, parent: u32)
    requires parent > 0 && Bbpll.IntegerWord(rate, parent) < 256
    requires integer == Bbpll.IntegerWord(rate, parent) % 256 && fract == Bbpll.FractWord(rate, parent)
    ensures Bbpll.RateOf(integer, fract, parent) == Bbpll.Achieved(rate, parent)
  {
  }

  /** Programming a rate up to the maximum and reading it back gives the
      achieved rate; rounding may have moved the request slightly above it. */
  lemma BbpllReadsBack(r: Regs, rate: u32, parent: u32)
    requires BbRef(parent) && rate <= Bbpll.MAX_FREQ + 100
    ensures var e := SetBbpll(r, rate, parent);
            Bbpll.RateOf(BbpllInteger(e), BbpllFract(e), parent) == Bbpll.Achieved(rate, parent)
  {
    BbpllWords(r, rate, parent);
    IntegerFits(rate, parent);
    var e := SetBbpll(r, rate, parent);
    hide *;
    SameWords(BbpllInteger(e), BbpllFract(e), rate, parent);
  }

  /** Rounding, programming and reading back: inside the range the rounded rate
      is reported exactly, a clamp is reported as its nearest register rate. */
  lemma RoundedIsReported(r: Regs, rate: nat, parent: u32)
    requires BbRef(parent) && parent <= 70000000
    ensures var round := Bbpll.RoundRate(rate, parent);
            && round <= Bbpll.MAX_FREQ + 100
            && var e := SetBbpll(r, round, parent);
               Bbpll.RateOf(BbpllInteger(e), BbpllFract(e), parent) ==
                 if Bbpll.MIN_FREQ <= rate <= Bbpll.MAX_FREQ then round else Bbpll.Achieved(round, parent)
  {
    Bbpll.RoundingError(rate, parent);
    var i, f := Bbpll.IntegerWord(rate, parent), Bbpll.FractWord(rate, parent);
    Bbpll.RegisterRatesAreFixed(i, f, parent);
    assert Bbpll.Achieved(rate, parent) == Bbpll.RateOf(i, f, parent);
    hide Bbpll.RateOf, Bbpll.Achieved, SetBbpll;
    BbpllReadsBack(r, Bbpll.RoundRate(rate, parent), parent);
  }

  /** The registers stand for a rate inside the BBPLL range. */
  predicate InBbpllRange(t: Tree) {
    && BbRef(t.rates[BB_REFCLK])
    && var rate := Bbpll.RateOf(BbpllInteger(t.Regs()), BbpllFract(t.Regs()), t.rates[BB_REFCLK]);
       Bbpll.MIN_FREQ <= rate <= Bbpll.MAX_FREQ
  }

  /** A rate the registers stand for is programmed back without change. */
  lemma BbpllRestart(c: Config, t: Tree)
    requires Coherent(c, t) && InBbpllRange(t)
    ensures Recalc(c, Apply(c, t, BBPLL_CLK, t.rates[BBPLL_CLK]), BBPLL_CLK) == t.rates[BBPLL_CLK]
  {
    var p, rate := t.rates[BB_REFCLK], t.rates[BBPLL_CLK];
    var i, f := BbpllInteger(t.Regs()), BbpllFract(t.Regs());
    assert rate == Recalc(c, t, BBPLL_CLK) == Bbpll.RateOf(i, f, p);
    Bbpll.RegisterRatesAreFixed(i, f, p);
    BbpllReadsBack(t.Regs(), rate, p);
    hide SetBbpll, BbpllInteger, BbpllFract, Bbpll.RateOf, Bbpll.Achieved;
    assert Bbpll.RoundRate(rate, p) == rate;
  }

  /** The rate of a restarted BBPLL: the request rounded, and what is left of it
      in one byte of integer word and three of fraction. */
  function Restarted(rate: u32, parent: u32): u32
    requires parent > 0
  {
    var round := Wrap32(Bbpll.RoundRate(rate, parent));
    Wrap32(Bbpll.RateOf(Bbpll.IntegerWord(round, parent) % 256, Bbpll.FractWord(round, parent), parent))
  }

  /** The ADC clock, the only one derived from the BBPLL directly, shows what the
      restarted BBPLL will give it. */
  predicate AdcMatches(t: Tree, rate: u32)
    requires t.rates[BB_REFCLK] > 0
  {
    Quotient(Restarted(rate, t.rates[BB_REFCLK]), DivOf(ADC_CLK, t.Regs())) == t.rates[ADC_CLK]
  }

  lemma RestartedRate(c: Config, t: Tree, rate: u32)
    requires Defined(c, t, BBPLL_CLK, rate)
    ensures Recalc(c, Apply(c, t, BBPLL_CLK, rate), BBPLL_CLK) == Restarted(rate, t.rates[BB_REFCLK])
  {
    var p := t.rates[BB_REFCLK];
    BbpllWords(t.Regs(), Wrap32(Bbpll.RoundRate(rate, p)), p);
    hide SetBbpll, BbpllInteger, BbpllFract, Bbpll.RateOf, Bbpll.RoundRate;
  }

  /** Restarting the BBPLL at its cached rate refreshes no other clock. The cache
      is coherent afterwards exactly when the ADC clock already shows what the
      restarted BBPLL gives it, as it does inside the BBPLL range. */
  lemma RestartCoherence(c: Config, t: Tree, rate: u32)
    requires Coherent(c, t) && StartsBbpll(t, BBPLL_CLK, rate) && Defined(c, t, BBPLL_CLK, rate)
    ensures var e := SetRate(c, t, BBPLL_CLK, rate);
            && e.bbpllInitialized && e.rates == t.rates[BBPLL_CLK := Restarted(rate, t.rates[BB_REFCLK])]
            && (Coherent(c, e) <==> AdcMatches(t, rate))
            && (InBbpllRange(t) ==> Coherent(c, e) && e.rates == t.rates)
  {
    var a := Apply(c, t, BBPLL_CLK, rate);
    var e := SetRate(c, t, BBPLL_CLK, rate);
    var parent := t.rates[BB_REFCLK];
    BbpllFrame(t.Regs(), Bbpll.RoundRate(rate, parent) % TWO32, parent);
    assert e == a.WithRate(BBPLL_CLK, Recalc(c, a, BBPLL_CLK));
    RestartTouches(c, t, a, e);
    RestartedRate(c, t, rate);
    if InBbpllRange(t) {
      BbpllRestart(c, t);
    }
    hide SetBbpll, Restarted, Recalc;
  }

  lemma RestartTouches(c: Config, t: Tree, a: Tree, e: Tree)
    requires Coherent(c, t) && a.rates == t.rates && e == a.WithRate(BBPLL_CLK, Recalc(c, a, BBPLL_CLK))
    requires a.lo == t.lo.(dev := t.lo.dev.(regs := a.Regs()))
    requires OutsideBbpllSame(t.Regs(), a.Regs())
    ensures Coherent(c, e) <==> Quotient(e.rates[BBPLL_CLK], DivOf(ADC_CLK, t.Regs())) == t.rates[ADC_CLK]
    ensures e.rates[BBPLL_CLK] == t.rates[BBPLL_CLK] ==> Coherent(c, e) && e.rates == t.rates
  {
    forall i | 0 <= i < NUM_CLKS && i != ADC_CLK ensures e.rates[i] == Recalc(c, e, i) {
      assert t.rates[i] == Recalc(c, t, i);
      RestartKeeps(c, t, e, i);
    }
    DivSame(t.Regs(), e.Regs(), ADC_CLK);
    assert Recalc(c, e, ADC_CLK) == Quotient(e.rates[BBPLL_CLK], DivOf(ADC_CLK, t.Regs()));
    assert t.rates[ADC_CLK] == Recalc(c, t, ADC_CLK);
    hide Recalc;
  }

  lemma RestartKeeps(c: Config, t: Tree, e: Tree, i: nat)
    requires i < NUM_CLKS && i != ADC_CLK && t.rates[i] == Recalc(c, t, i)
    requires forall j :: 0 <= j < NUM_CLKS && j != BBPLL_CLK ==> e.rates[j] == t.rates[j]
    requires e.lo == t.lo.(dev := t.lo.dev.(regs := e.Regs()))
    requires e.rates[BBPLL_CLK] == Recalc(c, e, BBPLL_CLK)
    requires OutsideBbpllSame(t.Regs(), e.Regs())
    ensures e.rates[i] == Recalc(c, e, i)
  {
    if 3 < i <= TX_SAMPL_CLK {
      DivSame(t.Regs(), e.Regs(), i);
    } else if i > TX_SAMPL_CLK {
      TuningRegsSame(t, e);
    }
    hide DivOf, LO.Reported, Extracted, FromByte, Bbpll.RateOf;
  }

  lemma TuningRegsSame(t: Tree, e: Tree)
    requires e.lo == t.lo.(dev := t.lo.dev.(regs := e.Regs()))
    requires forall x :: 0 <= x < SIZE && !IsClock(x) ==> e.Regs()[x] == t.Regs()[x]
    ensures forall b, p :: LO.Reported(t.lo, b, p) == LO.Reported(e.lo, b, p)
  {
    forall b, p ensures LO.Reported(t.lo, b, p) == LO.Reported(e.lo, b, p) {
      hide Synth.FractOf, Synth.IntegerOf, Rfpll.FreqOf, Extracted;
    }
  }

  /** A request that does not leave the cache behind. */
  predicate Safe(t: Tree, source: nat, rate: u32) {
    StartsBbpll(t, source, rate) && t.rates[BB_REFCLK] > 0 ==> AdcMatches(t, rate)
  }

  /** One request keeps the cache coherent exactly when it is safe; when the rate
      differs it even repairs an incoherent one. */
  lemma SetRateCoherence(c: Config, t: Tree, source: nat, rate: u32)
    requires Defined(c, t, source, rate)
    ensures t.rates[source] != rate ==> Coherent(c, SetRate(c, t, source, rate))
    ensures Coherent(c, t) ==> (Coherent(c, SetRate(c, t, source, rate)) <==> Safe(t, source, rate))
  {
    if t.rates[source] != rate {
      RefreshIsCoherent(c, OwnRate(c, Apply(c, t, source, rate), source), NUM_CLKS);
    } else if StartsBbpll(t, source, rate) && Coherent(c, t) {
      RestartCoherence(c, t, rate);
    }
    hide Apply, OwnRate, Recalc, AdcMatches;
  }

  datatype Request = Request(source: nat, rate: u32)

  /** A run of requests, each one defined in the state it meets. */
  predicate DefinedRun(c: Config, t: Tree, rs: seq<Request>)
    decreases |rs|
  {
    rs == []
    || (&& Defined(c, t, rs[0].source, rs[0].rate)
        && DefinedRun(c, SetRate(c, t, rs[0].source, rs[0].rate), rs[1..]))
  }

  function Run(c: Config, t: Tree, rs: seq<Request>): Tree
    requires DefinedRun(c, t, rs)
    decreases |rs|
  {
    if rs == [] then t else Run(c, SetRate(c, t, rs[0].source, rs[0].rate), rs[1..])
  }

  /** Every request of the run is safe in the state it meets. */
  predicate SafeRun(c: Config, t: Tree, rs: seq<Request>)
    requires DefinedRun(c, t, rs)
    decreases |rs|
  {
    rs == []
    || (&& Safe(t, rs[0].source, rs[0].rate)
        && SafeRun(c, SetRate(c, t, rs[0].source, rs[0].rate), rs[1..]))
  }

  /** The cache is coherent before, between and after the requests. */
  predicate CoherentThroughout(c: Config, t: Tree, rs: seq<Request>)
    requires DefinedRun(c, t, rs)
    decreases |rs|
  {
    Coherent(c, t) && (rs == [] || CoherentThroughout(c, SetRate(c, t, rs[0].source, rs[0].rate), rs[1..]))
  }

  lemma DifferentQuotients(x: u32, d: nat)
    requires x >= 714999000 && 1 <= d <= 128
    ensures Quotient(x, d) != Quotient(400000000, d)
  {
    DivBounds(x, d);
    DivBounds(400000000, d);
    assert x / d == 400000000 / d ==> x - 400000000 < d;
  }

  /** Registration fills the cache in dependency order from the synthesiser
      frequencies of the platform data. */
  function Registered(c: Config, t: Tree, rxSynth: u32, txSynth: u32): Tree {
    Refresh(c, t.WithRate(RX_RFPLL_DUMMY, rxSynth).WithRate(TX_RFPLL_DUMMY, txSynth), NUM_CLKS)
  }

  /** From registration on, every cached rate stays the one that the registers and
      the cached parent rate give, through exactly the runs of safe requests. */
  lemma {:induction false} RunsStayCoherent(c: Config, t: Tree, rs: seq<Request>)
    requires Coherent(c, t) && DefinedRun(c, t, rs)
    ensures CoherentThroughout(c, t, rs) <==> SafeRun(c, t, rs)
    ensures SafeRun(c, t, rs) ==> Coherent(c, Run(c, t, rs))
    decreases |rs|
  {
    if rs != [] {
      var e := SetRate(c, t, rs[0].source, rs[0].rate);
      SetRateCoherence(c, t, rs[0].source, rs[0].rate);
      hide SetRate, Recalc, Safe;
      if Coherent(c, e) {
        RunsStayCoherent(c, e, rs[1..]);
      }
    }
  }

  /** Once the BBPLL runs, every request is safe: the cache stays coherent whatever
      is asked for. */
  lemma {:induction false} RunningStaysCoherent(c: Config, t: Tree, rs: seq<Request>)
    requires t.bbpllInitialized && DefinedRun(c, t, rs)
    ensures SafeRun(c, t, rs)
    ensures Coherent(c, t) ==> CoherentThroughout(c, t, rs) && Coherent(c, Run(c, t, rs))
    decreases |rs|
  {
    if rs != [] {
      StaysInitialized(c, t, rs[0].source, rs[0].rate);
      hide SetRate, Recalc;
      RunningStaysCoherent(c, SetRate(c, t, rs[0].source, rs[0].rate), rs[1..]);
    }
    if Coherent(c, t) {
      RunsStayCoherent(c, t, rs);
    }
  }

  lemma StaysInitialized(c: Config, t: Tree, source: nat, rate: u32)
    requires Defined(c, t, source, rate) && t.bbpllInitialized
    ensures SetRate(c, t, source, rate).bbpllInitialized
  {
    if t.rates[source] != rate {
      hide SetFactor, SetBbpll, LO.SetLo, RoundFactor, Refresh, Recalc;
      var a := Apply(c, t, source, rate);
      assert a.bbpllInitialized;
      RefreshOneQuiet(c, a, source);
      RefreshQuiet(c, OwnRate(c, a, source), NUM_CLKS);
    }
  }

  /** Registers found at reset with a BBPLL of 400 MHz from a reference of 40 MHz. */
  function At400MHz(t: Tree): Tree {
    t.WithRegs(t.Regs()[0x045 := 0][0x044 := 10][0x043 := 0][0x042 := 0][0x041 := 0]).(bbpllInitialized := false)
  }

  /** There the cache of the registration is right, and asking for the 400 MHz it
      shows puts it out of step: the BBPLL is clamped to 715 MHz and no other clock
      is refreshed. */
  lemma RestartLosesCoherence(c: Config, t: Tree, rxSynth: u32, txSynth: u32)
    requires c.refin == 40000000
    ensures var s := Registered(c, At400MHz(t), rxSynth, txSynth);
            && Coherent(c, s) && Defined(c, s, BBPLL_CLK, 400000000) && StartsBbpll(s, BBPLL_CLK, 400000000)
            && !Coherent(c, SetRate(c, s, BBPLL_CLK, 400000000))
  {
    hide Refresh;
    var a := At400MHz(t);
    var b := a.WithRate(RX_RFPLL_DUMMY, rxSynth).WithRate(TX_RFPLL_DUMMY, txSynth);
    var s := Registered(c, a, rxSynth, txSynth);
    RegistrationIsCoherent(c, a, rxSynth, txSynth);
    RefreshQuiet(c, b, NUM_CLKS);
    Shows400MHz(c, s);
    RestartCoherence(c, s, 400000000);
    hide *;
    ClampedAdc(c, s);
  }

  lemma Shows400MHz(c: Config, s: Tree)
    requires c.refin == 40000000 && Coherent(c, s)
    requires s.Regs()[0x045] == 0 && s.Regs()[0x044] == 10
    requires s.Regs()[0x043] == 0 && s.Regs()[0x042] == 0 && s.Regs()[0x041] == 0
    ensures s.rates[BB_REFCLK] == 40000000 && s.rates[BBPLL_CLK] == 400000000
  {
    assert s.rates[BB_REFCLK] == Recalc(c, s, BB_REFCLK) && s.rates[BBPLL_CLK] == Recalc(c, s, BBPLL_CLK);
  }

  lemma ClampedAdc(c: Config, s: Tree)
    requires Coherent(c, s) && s.rates[BB_REFCLK] == 40000000 && s.rates[BBPLL_CLK] == 400000000
    ensures !AdcMatches(s, 400000000)
  {
    var d := DivOf(ADC_CLK, s.Regs());
    DividersBounded(ADC_CLK, s.Regs());
    assert Restarted(400000000, 40000000) >= 714999000;
    assert s.rates[ADC_CLK] == Recalc(c, s, ADC_CLK) == Quotient(400000000, d);
    hide DivOf, Restarted, Recalc, Quotient;
    DifferentQuotients(Restarted(400000000, 40000000), d);
  }

  lemma RegistrationIsCoherent(c: Config, t: Tree, rxSynth: u32, txSynth: u32)
    ensures Coherent(c, Registered(c, t, rxSynth, txSynth))
  {
    RefreshIsCoherent(c, t.WithRate(RX_RFPLL_DUMMY, rxSynth).WithRate(TX_RFPLL_DUMMY, txSynth), NUM_CLKS);
  }
}
