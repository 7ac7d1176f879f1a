/** The reference clocks: scaler codes spread over register fields, set and read
    back through the cached clock tree. */
module References {
  import opened CTypes
  import opened Bytes
  import opened Registers
  import opened Device
  import opened Dividers
  import opened ClockTree
  import EndToEnd

  /** Storing a scaler code and getting it back is the identity, also for the code
      that is split over two registers; the other two references keep theirs. */
  lemma StoreRefLaw(i: nat, r: Regs, code: nat, j: nat)
    requires i < 3 && j < 3 && code < 4
    ensures RefCode(j, StoreRef(i, r, code)) == if j == i then code else RefCode(j, r)
  {
    if i == RX_REFCLK {
      SplitCode(r, code);
    } else {
      TwoBitCode(r, code);
    }
    hide ToByte;
    if i == BB_REFCLK {
      BbElsewhere(r, code);
    } else if i == TX_REFCLK {
      TxElsewhere(r, code);
    } else {
      RxElsewhere(r, code);
    }
  }

  /** Where the codes lie: the baseband one at the bottom of its register, the TX one
      in the middle of one that has the lower bit of the RX one at its top. */
  lemma CodeLayout(r: Regs)
    ensures RefCode(BB_REFCLK, r) == FromByte(r[0x045]) % 4 && RefCode(TX_REFCLK, r) == FromByte(r[0x2AC]) / 4 % 4
    ensures RefCode(RX_REFCLK, r) == 2 * (FromByte(r[0x2AB]) % 2) + FromByte(r[0x2AC]) / 128
  {
    CodeFields(r[0x045]);
    CodeFields(r[0x2AB]);
    CodeFields(r[0x2AC]);
    hide Extracted, FromByte;
  }

  /** What the codes stand for: the last one doubles the input, the others halve it as
      often as they say. */
  lemma CodeMeaning(code: nat, refin: u32)
    requires code < 4
    ensures RefRate(code, refin) == if code == 3 then Wrap32(2 * (refin as int)) else refin / Pow2(code)
  {
  }

  lemma CodesAreShifts(b: bv8)
    ensures Extracted(b, 0x0C, 2) == (b >> 2) & 3 && Extracted(b, 0x01, 0) == b & 1 && Extracted(b, 0x80, 7) == b >> 7
  {
  }

  lemma Shifted7(b: bv8)
    ensures (b >> 7) as int == b as int / 128
  {
  }

  lemma CodeFields(b: bv8)
    ensures (b & 0x03) as int == FromByte(b) % 4 && Extracted(b, 0x0C, 2) as int == FromByte(b) / 4 % 4
    ensures Extracted(b, 0x01, 0) as int == FromByte(b) % 2 && Extracted(b, 0x80, 7) as int == FromByte(b) / 128
  {
    CodesAreShifts(b);
    hide Extracted;
    LowTwoBits(b);
    Shifted2(b);
    LowTwoBits(b >> 2);
    LowBit(b);
    Shifted7(b);
  }

  lemma FieldReads(r: Regs, f: Field, code: nat, limit: bv8)
    requires f.reg < SIZE && f.off < 8 && f.mask >> f.off == limit
    requires (limit == 3 || limit == 1) && code <= limit as int
    ensures ReadF(WriteF(r, f, ToByte(code)), f) as int == code
  {
    hide ToByte, WriteF, ReadF;
    WriteThenRead(r, f, ToByte(code));
    LowCode(code, limit);
  }

  lemma TwoBitCode(r: Regs, code: nat)
    requires code < 4
    ensures RefCode(BB_REFCLK, StoreRef(BB_REFCLK, r, code)) == code
    ensures RefCode(TX_REFCLK, StoreRef(TX_REFCLK, r, code)) == code
  {
    FieldReads(r, Field(0x045, 0x03, 0), code, 3);
    FieldReads(r, Field(0x2AC, 0x0C, 2), code, 3);
    hide ToByte, WriteF;
    var s := StoreRef(BB_REFCLK, r, code);
    Unshifted(s[0x045]);
  }

  lemma Unshifted(b: bv8)
    ensures Extracted(b, 0x03, 0) == b & 0x03
  {
  }

  lemma SplitCode(r: Regs, code: nat)
    requires code < 4
    ensures RefCode(RX_REFCLK, StoreRef(RX_REFCLK, r, code)) == code
  {
    var high, low := Field(0x2AB, 0x01, 0), Field(0x2AC, 0x80, 7);
    FieldReads(r, high, code / 2, 1);
    var s := WriteF(r, high, ToByte(code / 2));
    FieldReads(s, low, code % 2, 1);
    WriteElsewhere(s, low, ToByte(code % 2), high);
    hide ToByte, WriteF, ReadF;
  }

  lemma BbElsewhere(r: Regs, code: nat)
    requires code < 4
    ensures RefCode(RX_REFCLK, StoreRef(BB_REFCLK, r, code)) == RefCode(RX_REFCLK, r)
    ensures RefCode(TX_REFCLK, StoreRef(BB_REFCLK, r, code)) == RefCode(TX_REFCLK, r)
  {
    hide ToByte;
  }

  lemma TxElsewhere(r: Regs, code: nat)
    requires code < 4
    ensures RefCode(RX_REFCLK, StoreRef(TX_REFCLK, r, code)) == RefCode(RX_REFCLK, r)
    ensures RefCode(BB_REFCLK, StoreRef(TX_REFCLK, r, code)) == RefCode(BB_REFCLK, r)
  {
  }

  lemma RxElsewhere(r: Regs, code: nat)
    requires code < 4
    ensures RefCode(TX_REFCLK, StoreRef(RX_REFCLK, r, code)) == RefCode(TX_REFCLK, r)
    ensures RefCode(BB_REFCLK, StoreRef(RX_REFCLK, r, code)) == RefCode(BB_REFCLK, r)
  {
  }

  /** A reference input for which none of the ratios is lost in rounding. */
  predicate GoodInput(refin: u32) { 100 <= refin && 2 * refin + refin / 2 < TWO32 }

  /** The multiplier and divider a scaler code stands for. */
  function ScalerOf(code: nat): (u32, u32) {
    if code == 0 then (1, 1) else if code == 1 then (1, 2) else if code == 2 then (1, 4) else (2, 1)
  }

  /** The rounded ratio misses its parent or its rate by at most one half. */
  lemma RatioIsNearest(rate: u32, prate: u32)
    requires rate > 0 && prate > 0
    requires rate + prate / 2 < TWO32 && prate + rate / 2 < TWO32
    ensures var (mult, div) := Ratio(rate, prate);
            && mult > 0 && (mult == 1 || div == 1)
            && (rate >= prate ==> 2 * (mult * prate - rate) <= prate && 2 * (rate - mult * prate) <= prate)
            && (rate < prate ==> 2 * (div * rate - prate) <= rate && 2 * (prate - div * rate) <= rate)
  {
    if rate >= prate {
      NearestQuotient(rate, prate);
    } else {
      NearestQuotient(prate, rate);
    }
  }

  lemma NearestQuotient(x: u32, d: u32)
    requires 0 < d <= x && x + d / 2 < TWO32
    ensures var q := DivRoundClosest(x, d); q > 0 && 2 * (q * d - x) <= d && 2 * (x - q * d) <= d
  {
    var q := (x + d / 2) / d;
    DivBounds(x + d / 2, d);
    assert d * q == q * d;
    Cancel(d, 0, q);
  }

  /** The ratio a scaler stands for is the only one it is found for, both numbers
      being cut off to four bits. */
  lemma ScalerOfRatio(mult: u32, div: u32, code: nat)
    ensures RefScaler(mult, div) == Ok(code) <==> code < 4 && (mult % 16, div % 16) == ScalerOf(code)
  {
  }

  lemma Closest(x: u32, d: u32, q: u32)
    requires d > 0 && x + d / 2 < TWO32 && d * q <= x + d / 2 < d * q + d
    ensures DivRoundClosest(x, d) == q
  {
    QuotientIs(x + d / 2, d, q);
  }

  lemma Doubled(refin: u32)
    requires GoodInput(refin)
    ensures RefRate(3, refin) > 0 && Ratio(RefRate(3, refin), refin) == (2, 1)
    ensures Wrap32((refin / 1) * 2) == RefRate(3, refin)
  {
    Closest(2 * refin, refin, 2);
    hide DivRoundClosest;
    assert Wrap32(refin * 2) == refin * 2;
  }

  lemma Divided(code: nat, refin: u32, q: u32)
    requires GoodInput(refin) && code < 3 && q == ScalerOf(code).1
    ensures RefRate(code, refin) > 0 && Ratio(RefRate(code, refin), refin) == (1, q)
    ensures Wrap32((refin / q) * 1) == RefRate(code, refin)
  {
    var rate := RefRate(code, refin);
    assert rate == refin / q;
    Closest(refin, rate, q);
    hide DivRoundClosest;
    if code == 0 {
      assert rate == refin;
    } else {
      assert 0 < rate < refin;
    }
  }

  /** Rounding finds the scaler of a rate that some code stands for. */
  lemma RatioOfCode(code: nat, refin: u32) returns (mult: u32, div: u32)
    requires code < 4 && GoodInput(refin)
    ensures RefRate(code, refin) > 0 && div > 0 && Ratio(RefRate(code, refin), refin) == (mult, div)
    ensures RefScaler(mult, div) == Ok(code) && Wrap32((refin / div) * mult) == RefRate(code, refin)
  {
    mult, div := ScalerOf(code).0, ScalerOf(code).1;
    if code == 3 {
      Doubled(refin);
    } else {
      Divided(code, refin, div);
    }
    hide RefRate, Ratio, Wrap32, GoodInput;
  }

  /** Asking clk_set_rate for a rate that some scaler gives sets that scaler and
      reads back exactly, whatever it was set to before. */
  lemma ReferenceReached(c: Config, t: Tree, i: nat, code: nat)
    requires i < 3 && code < 4 && GoodInput(c.refin) && Coherent(c, t)
    ensures RefRate(code, c.refin) > 0
    ensures var e := SetRate(c, t, i, RefRate(code, c.refin)); Coherent(c, e) && e.rates[i] == RefRate(code, c.refin)
  {
    hide RefRate, RefScaler, StoreRef, RefCode;
    var rate := RefRate(code, c.refin);
    var mult, div := RatioOfCode(code, c.refin);
    hide Ratio;
    if t.rates[i] != rate {
      var r := StoreRef(i, t.Regs(), code);
      assert Apply(c, t, i, rate) == t.WithRegs(r);
      var e := SetRate(c, t, i, rate);
      EndToEnd.AfterRefresh(c, t.WithRegs(r), i);
      StoreRefLaw(i, t.Regs(), code, i);
      SameCode(r, e.Regs(), i);
      assert e.rates[i] == Recalc(c, e, i);
    }
  }

  lemma SameCode(r: Regs, s: Regs, i: nat)
    requires i < 3 && forall a :: 0 <= a < SIZE && IsClock(a) ==> r[a] == s[a]
    ensures RefCode(i, r) == RefCode(i, s)
  {
    assert IsClock(0x045) && IsClock(0x2AB) && IsClock(0x2AC);
  }
}
