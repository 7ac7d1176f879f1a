/** Setting LO clocks through the cached clock tree: which synthesiser is tuned, and
    that the rate is reached. */
module LoClocks {
  import opened CTypes
  import opened Registers
  import opened Device
  import opened Dividers
  import opened ClockTree
  import opened Coherence
  import EndToEnd
  import LO = LocalOscillator
  import Rfpll

  /** The clocks that stand for the TX side; the others are those of the RX side. */
  predicate IsTx(source: nat) { source == TX_RFPLL || source == TX_RFPLL_INT || source == TX_RFPLL_DUMMY }

  /** An LO clock that is made by the device's own synthesiser. */
  predicate Internal(c: Config, source: nat) {
    || source == RX_RFPLL_INT || source == TX_RFPLL_INT
    || (source == RX_RFPLL && !c.useExtRxLo) || (source == TX_RFPLL && !c.useExtTxLo)
  }

  /** An LO clock that follows an external oscillator. */
  predicate External(c: Config, source: nat) {
    (source == RX_RFPLL && c.useExtRxLo) || (source == TX_RFPLL && c.useExtTxLo)
  }

  function DummyOf(source: nat): nat { if IsTx(source) then TX_RFPLL_DUMMY else RX_RFPLL_DUMMY }

  function RefClock(b: bool): nat { if b then TX_REFCLK else RX_REFCLK }

  /** Both synthesisers run from a reference they are made for. */
  predicate GoodRefs(t: Tree) {
    forall b :: Rfpll.MIN_REF <= t.rates[RefClock(b)] <= Rfpll.MAX_REF
  }

  function RefsOf(t: Tree): LO.Refs
    requires GoodRefs(t)
  {
    assert RefClock(false) == RX_REFCLK && RefClock(true) == TX_REFCLK;
    LO.Refs(t.rates[RX_REFCLK], t.rates[TX_REFCLK])
  }

  // ---- the tuned synthesiser ----

  /** Tuning one synthesiser always leaves it on its own words, and keeps the clock
      registers and the LO of the other one. */
  lemma TunedOwn(c: LO.Config, st: LO.Lo, tx: bool, rate: u32, parent: LO.Ref)
    requires LO.Valid(c, rate)
    ensures var e := LO.SetLo(c, st, tx, rate, parent);
            && LO.SideTuned(c, e, tx, parent) && e.Of(tx).lo == rate && e.Of(tx).profile == 0
            && e.Of(!tx).lo == st.Of(!tx).lo && SameClocks(st.dev, e.dev)
  {
    hide LO.Leave, LO.SkipCal, LO.WordsOf, LO.Valid, LO.HoldsWords, LO.Tune, LO.NeedsFixup;
    LO.ValidIsPositive(c, rate);
    LO.FixupSettles(c, st, tx, rate, parent);
    var none := LO.Refs(parent, parent);
    var w, left := LO.WordsOf(rate, parent), LO.Leave(st, tx);
    LO.LeaveLaw(c, st, tx, none);
    var st2 := left.With(tx, left.Of(tx).(lo := rate, cachedDiv := w.vcoDiv));
    LO.SkipLaw(c, st2, tx, true, none);
    LO.TuneLaw(c, LO.SkipCal(c, st2, tx, true), tx, rate, parent);
    var first := LO.FirstTurn(c, left, tx, rate, parent);
    assert LO.HoldsWords(first.dev, tx, w);
    FixupOwn(c, first, tx, rate, parent);
    LO.SkipLaw(c, LO.Fixup(c, first, tx, w, parent), tx, false, none);
  }

  /** Fixing up the other one leaves the words of the tuned one alone. */
  lemma FixupOwn(c: LO.Config, st: LO.Lo, tx: bool, rate: u32, parent: LO.Ref)
    requires LO.Valid(c, rate) && rate > 0
    requires LO.HoldsWords(st.dev, tx, LO.WordsOf(rate, parent))
    ensures var e := LO.Fixup(c, st, tx, LO.WordsOf(rate, parent), parent);
            && LO.HoldsWords(e.dev, tx, LO.WordsOf(rate, parent)) && SameClocks(st.dev, e.dev)
            && e.Of(tx).profile == st.Of(tx).profile
  {
    hide LO.Leave, LO.Tune, LO.WordsOf, LO.Valid, LO.HoldsWords;
    var w := LO.WordsOf(rate, parent);
    if LO.NeedsFixup(c, st) {
      if st.tx.lo == st.rx.lo {
        LO.TuneLaw(c, st, !tx, rate, parent);
      } else {
        var other := st.Of(!tx).lo;
        if LO.Valid(c, other) {
          LO.ValidIsPositive(c, other);
        }
        LO.LeaveLaw(c, st, !tx, LO.Refs(parent, parent));
        LO.QuietHolds(st.dev, LO.Leave(st, !tx).dev, tx, w);
        LO.TuneLaw(c, LO.Leave(st, !tx), !tx, if LO.Valid(c, other) then other else rate, parent);
      }
    }
  }

  // ---- the refresh behind it ----

  /** Reference rates and LO settings are as after the change itself. */
  lemma AfterChange(c: Config, t: Tree, a: Tree, source: nat, e: Tree)
    requires Coherent(c, t) && source < NUM_CLKS && e == Refresh(c, OwnRate(c, a, source), NUM_CLKS)
    requires forall x :: 0 <= x < SIZE && IsClock(x) ==> a.Regs()[x] == t.Regs()[x]
    ensures SameSetting(a, e) && Coherent(c, e)
    ensures forall b :: e.rates[RefClock(b)] == t.rates[RefClock(b)]
  {
    EndToEnd.AfterRefresh(c, a, source);
    assert IsClock(0x2AB) && IsClock(0x2AC);
    forall b ensures e.rates[RefClock(b)] == t.rates[RefClock(b)] {
      assert t.rates[RefClock(b)] == Recalc(c, t, RefClock(b)) && e.rates[RefClock(b)] == Recalc(c, e, RefClock(b));
      hide Refresh, OwnRate, RefRate, ReadF, Coherent;
    }
  }

  lemma SettingKeepsWords(c: LO.Config, a: Tree, e: Tree, b: bool, parent: LO.Ref)
    requires SameSetting(a, e) && LO.SideTuned(c, a.lo, b, parent)
    ensures LO.SideTuned(c, e.lo, b, parent) && e.lo.Of(b) == a.lo.Of(b)
  {
    if a.lo.Of(b).lo != 0 {
      LO.QuietHolds(a.lo.dev, e.lo.dev, b, LO.WordsOf(a.lo.Of(b).lo, parent));
    }
    hide LO.HoldsWords, LO.WordsOf, LO.Valid;
  }

  /** The rate of an internal LO clock is what its synthesiser reports. */
  lemma InternalRate(c: Config, e: Tree, source: nat)
    requires Coherent(c, e) && source < NUM_CLKS && Internal(c, source)
    ensures e.rates[source] == LO.Reported(e.lo, IsTx(source), e.rates[RefClock(IsTx(source))])
  {
    assert e.rates[source] == Recalc(c, e, source);
    hide LO.Reported;
  }

  /** A carrier the device accepts is passed on as it is; of the others none becomes
      one it accepts. */
  lemma RoundedLo(c: Config, rate: u32)
    ensures LO.Valid(c.lo, rate) ==> RoundLo(rate) == rate
    ensures !LO.Valid(c.lo, rate) ==> !LO.Valid(c.lo, RoundLo(rate))
  {
  }

  lemma RefsPositive(t: Tree)
    requires GoodRefs(t)
    ensures t.rates[RX_REFCLK] > 0 && t.rates[TX_REFCLK] > 0
  {
    RefIsGood(t, false);
    RefIsGood(t, true);
  }

  /** The request reaches the synthesiser of its own side. */
  lemma InternalApplies(c: Config, t: Tree, source: nat, rate: u32) returns (round: u32)
    requires source < NUM_CLKS && Internal(c, source) && GoodRefs(t)
    ensures Defined(c, t, source, rate) && LO.Valid(c.lo, round) == LO.Valid(c.lo, rate)
    ensures LO.Valid(c.lo, rate) ==> round == rate
    ensures var b := IsTx(source);
            && t.rates[RefClock(b)] > 0
            && Apply(c, t, source, rate) == t.(lo := LO.SetLo(c.lo, t.lo, b, round, t.rates[RefClock(b)]))
  {
    RoundedLo(c, rate);
    RefsPositive(t);
    hide LO.SetLo, LO.Valid, RoundLo, GoodRefs;
    round := if source >= RX_RFPLL && c.useExtTxLo then rate else RoundLo(rate);
    IntApplies(c, t, source, rate);
  }

  lemma IntApplies(c: Config, t: Tree, source: nat, rate: u32)
    requires source < NUM_CLKS && Internal(c, source) && t.rates[RX_REFCLK] > 0 && t.rates[TX_REFCLK] > 0
    ensures Defined(c, t, source, rate)
    ensures Apply(c, t, source, rate) ==
              SetInt(c, t, IsTx(source), if source >= RX_RFPLL && c.useExtTxLo then rate else RoundLo(rate))
  {
    hide LO.SetLo, RoundLo, SetInt;
  }

  /** clk_set_rate on an internal LO clock, RX or TX: that side's LO becomes the rate,
      the cached rate is within 2 of it, and the LO of the other side stays. */
  lemma InternalReached(c: Config, t: Tree, source: nat, rate: u32)
    requires Coherent(c, t) && GoodRefs(t) && source < NUM_CLKS && Internal(c, source)
    requires LO.Valid(c.lo, rate)
    ensures Defined(c, t, source, rate)
    ensures var e, b := SetRate(c, t, source, rate), IsTx(source);
            && Coherent(c, e) && -2 <= e.rates[source] - rate <= 1
            && e.lo.Of(!b).lo == t.lo.Of(!b).lo
            && (t.rates[source] != rate ==> e.lo.Of(b).lo == rate && e.lo.Of(b).profile == 0)
            && (t.rates[source] == rate ==> e == t)
  {
    hide LO.SetLo, LO.Valid, LO.SideTuned, Apply, Refresh, OwnRate, Recalc, LO.Reported, GoodRefs;
    var _ := InternalApplies(c, t, source, rate);
    ValidIsPositive(c, rate);
    var b, e := IsTx(source), SetRate(c, t, source, rate);
    SetRateCoherence(c, t, source, rate);
    if t.rates[source] != rate {
      RefIsGood(t, b);
      var parent: LO.Ref := t.rates[RefClock(b)];
      var a := Apply(c, t, source, rate);
      TunedOwn(c.lo, t.lo, b, rate, parent);
      AfterChange(c, t, a, source, e);
      SettingKeepsWords(c.lo, a, e, b, parent);
      InternalRate(c, e, source);
      LO.TunedReportsItsLo(c.lo, e.lo, b, parent);
      assert e.lo.Of(!b) == a.lo.Of(!b);
    }
  }

  lemma ValidIsPositive(c: Config, rate: u32)
    requires LO.Valid(c.lo, rate)
    ensures rate > 0
  {
  }

  lemma RefIsGood(t: Tree, b: bool)
    requires GoodRefs(t)
    ensures Rfpll.MIN_REF <= t.rates[RefClock(b)] <= Rfpll.MAX_REF
  {
  }

  /** With both synthesisers right before, the other clock still reads its own LO
      afterwards, unless it was fixed up for a reference that is not its own. */
  lemma OtherStillReads(c: Config, t: Tree, source: nat, rate: u32)
    requires Coherent(c, t) && GoodRefs(t) && source < NUM_CLKS && Internal(c, source) && LO.Valid(c.lo, rate)
    requires t.rates[source] != rate && LO.Tuned(c.lo, t.lo, RefsOf(t))
    requires RefsOf(t).rx == RefsOf(t).tx || !LO.FixupDue(c.lo, t.lo, IsTx(source), rate)
    ensures Defined(c, t, source, rate)
    ensures var e, b := SetRate(c, t, source, rate), !IsTx(source);
            && LO.Tuned(c.lo, e.lo, RefsOf(t))
            && var other := if b then TX_RFPLL_INT else RX_RFPLL_INT;
               e.lo.Of(b).lo != 0 && e.lo.Of(b).profile == 0 ==> -2 <= e.rates[other] - e.lo.Of(b).lo <= 1
  {
    hide LO.SetLo, LO.Valid, LO.SideTuned, Apply, Refresh, OwnRate, Recalc, LO.Reported, LO.FixupDue, GoodRefs;
    var _ := InternalApplies(c, t, source, rate);
    var b, e, refs := IsTx(source), SetRate(c, t, source, rate), RefsOf(t);
    var a := Apply(c, t, source, rate);
    RefIsGood(t, b);
    RefIsGood(t, !b);
    TunedOwn(c.lo, t.lo, b, rate, t.rates[RefClock(b)]);
    LO.OtherKeepsItsWords(c.lo, t.lo, b, rate, refs);
    AfterChange(c, t, a, source, e);
    SettingKeepsWords(c.lo, a, e, false, refs.rx);
    SettingKeepsWords(c.lo, a, e, true, refs.tx);
    var other := if b then RX_RFPLL_INT else TX_RFPLL_INT;
    InternalRate(c, e, other);
    if e.lo.Of(!b).lo != 0 && e.lo.Of(!b).profile == 0 {
      LO.TunedReportsItsLo(c.lo, e.lo, !b, refs.Of(!b));
    }
  }

  /** A carrier the device does not accept changes neither LO. */
  lemma InvalidChangesNoLo(c: Config, t: Tree, source: nat, rate: u32)
    requires Coherent(c, t) && GoodRefs(t) && source < NUM_CLKS && Internal(c, source) && !LO.Valid(c.lo, rate)
    ensures Defined(c, t, source, rate)
    ensures var e := SetRate(c, t, source, rate); e.lo.rx.lo == t.lo.rx.lo && e.lo.tx.lo == t.lo.tx.lo
  {
    hide LO.Leave, LO.Valid, LO.Fixup, LO.FirstTurn, LO.SkipCal;
    hide RoundLo, Refresh, Recalc, RecalcEffect, Apply, GoodRefs;
    var round := InternalApplies(c, t, source, rate);
    var a, b := Apply(c, t, source, rate), IsTx(source);
    LO.LeaveLaw(c.lo, t.lo, b, RefsOf(t));
    EndToEnd.AfterRefresh(c, a, source);
  }

  // ---- external LOs ----

  /** The dummy clocks keep their rates through a refresh. */
  lemma {:induction false} DummiesStay(c: Config, t: Tree, n: nat, i: nat)
    requires n <= NUM_CLKS && (i == RX_RFPLL_DUMMY || i == TX_RFPLL_DUMMY)
    ensures Refresh(c, t, n).rates[i] == t.rates[i]
  {
    if n > 0 {
      DummiesStay(c, t, n - 1, i);
      var r := Refresh(c, t, n - 1);
      assert n - 1 == i ==> Recalc(c, r, i) == r.rates[i];
      hide Recalc;
    }
  }

  /** The carriers of the AD9361, as halved rates. */
  predicate InLoRange(rate: u32) { 35000000 <= rate <= 3000000000 }

  /** clk_set_rate on an external LO clock: its dummy clock and itself show the rate,
      which is only checked while the TX side is internal; no synthesiser is tuned. */
  lemma ExternalReached(c: Config, t: Tree, source: nat, rate: u32)
    requires Coherent(c, t) && GoodRefs(t) && source < NUM_CLKS && External(c, source) && t.rates[source] != rate
    ensures Defined(c, t, source, rate)
    ensures var e := SetRate(c, t, source, rate);
            && Coherent(c, e) && SameSetting(t, e)
            && e.rates[source] == e.rates[DummyOf(source)]
            && e.rates[source] == (if c.useExtTxLo || InLoRange(rate) then rate else EINVAL32)
            && e.rates[DummyOf(TX_RFPLL + RX_RFPLL - source)] == t.rates[DummyOf(TX_RFPLL + RX_RFPLL - source)]
  {
    RefsPositive(t);
    var a, e := Apply(c, t, source, rate), SetRate(c, t, source, rate);
    var round: u32 := if c.useExtTxLo || InLoRange(rate) then rate else EINVAL32;
    assert a == t.WithRate(DummyOf(source), round);
    EndToEnd.AfterRefresh(c, a, source);
    var own := OwnRate(c, a, source);
    DummiesStay(c, own, NUM_CLKS, RX_RFPLL_DUMMY);
    DummiesStay(c, own, NUM_CLKS, TX_RFPLL_DUMMY);
    assert e.rates[source] == Recalc(c, e, source);
    hide LO.SetLo, RoundLo, Refresh;
  }

  /** Setting a dummy clock leaves it, and an LO clock that follows it, at zero. */
  lemma DummyBecomesZero(c: Config, t: Tree, source: nat, rate: u32)
    requires GoodRefs(t) && (source == RX_RFPLL_DUMMY || source == TX_RFPLL_DUMMY) && t.rates[source] != rate
    ensures Defined(c, t, source, rate) && SetRate(c, t, source, rate).rates[source] == 0
  {
    RefsPositive(t);
    var a := Apply(c, t, source, rate);
    DummiesStay(c, OwnRate(c, a, source), NUM_CLKS, source);
    hide Refresh;
  }

  /** Registration gives the dummy clocks the synthesiser frequencies of the platform
      data, and every clock its rate. */
  lemma RegisteredDummies(c: Config, t: Tree, rxSynth: u32, txSynth: u32)
    ensures var e := Registered(c, t, rxSynth, txSynth);
            Coherent(c, e) && e.rates[RX_RFPLL_DUMMY] == rxSynth && e.rates[TX_RFPLL_DUMMY] == txSynth
  {
    var a := t.WithRate(RX_RFPLL_DUMMY, rxSynth).WithRate(TX_RFPLL_DUMMY, txSynth);
    RegistrationIsCoherent(c, t, rxSynth, txSynth);
    DummiesStay(c, a, NUM_CLKS, RX_RFPLL_DUMMY);
    DummiesStay(c, a, NUM_CLKS, TX_RFPLL_DUMMY);
    hide Refresh;
  }
}
