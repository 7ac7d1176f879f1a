/** Fractional-N arithmetic of the RF synthesisers: choice of the VCO divider,
    the frequency words, and the frequency they stand for. */
module Rfpll {
  import opened CTypes

  const MODULUS := 8388593
  const MIN_VCO := 6000000000
  const MIN_REF := 10000000
  const MAX_REF := 80000000

  datatype Words = Words(integer: nat, fract: nat, vcoDiv: int, vco: nat)

  /** ad9361_validate_rfpll: the carriers the selected device accepts. */
  predicate ValidCarrier(freq: nat, ad9363a: bool) {
    if ad9363a then 325000000 <= freq <= 3800000000 else 70000000 <= freq <= 6000000000
  }

  /** Rates are kept halved so that 6 GHz fits 32 bits. */
  function ToClk(freq: nat): u32 { Wrap32(freq / 2) }

  function FromClk(rate: u32): nat { 2 * rate }

  /** How many times the carrier is doubled to leave the range up to MIN_VCO. */
  function Doublings(freq: nat): nat
    requires freq > 0
    decreases MIN_VCO - freq
  {
    if freq > MIN_VCO then 0 else 1 + Doublings(2 * freq)
  }

  /** The words ad9361_calc_rfpll_int_divder computes for a carrier. */
  function WordsFor(freq: nat, parent: nat): Words
    requires freq > 0 && parent > 0
  {
    var n := Doublings(freq);
    var vco := freq * Pow2(n);
    Words(vco / parent, ((vco % parent) * MODULUS + parent / 2) / parent, n - 1, vco)
  }

  /** ad9361_calc_rfpll_int_divder */
  method CalcDividers(carrier: nat, parent: nat, ad9363a: bool) returns (r: Result<Words>)
    requires parent > 0
    ensures r == if ValidCarrier(carrier, ad9363a) then Ok(WordsFor(carrier, parent)) else Err
    ensures ad9363a ==> (r.Ok? <==> 325000000 <= carrier <= 3800000000)
    ensures !ad9363a ==> (r.Ok? <==> 70000000 <= carrier <= 6000000000)
  {
    if !ValidCarrier(carrier, ad9363a) {
      return Err;
    }
    hide Pow2;
    ZeroDoublings(carrier);
    var freq := carrier;
    var div := -1;
    while freq <= MIN_VCO
      invariant freq > 0 && div >= -1
      invariant freq == carrier * Pow2(div + 1)
      invariant Doublings(carrier) == div + 1 + Doublings(freq)
      decreases MIN_VCO - freq
    {
      DoubledPower(carrier, div + 1);
      freq := 2 * freq;
      div := div + 1;
    }
    var tmp := (freq % parent) * MODULUS + parent / 2;
    r := Ok(Words(freq / parent, tmp / parent, div, freq));
  }

  lemma DoubledPower(x: nat, n: nat)
    ensures x * Pow2(n + 1) == 2 * (x * Pow2(n))
  {
    assert x * (2 * Pow2(n)) == 2 * (x * Pow2(n));
  }

  lemma ZeroDoublings(x: nat)
    ensures x * Pow2(0) == x
  {
  }

  /** ad9361_calc_rfpll_int_freq */
  function FreqOf(integer: nat, fract: nat, vcoDiv: nat, parent: nat): nat {
    FloorDiv((parent * fract) / MODULUS + parent * integer, Pow2(vcoDiv + 1))
  }

  lemma {:induction false} DoublingsReachBand(freq: nat)
    requires 0 < freq <= MIN_VCO
    ensures Doublings(freq) >= 1
    ensures MIN_VCO < freq * Pow2(Doublings(freq)) <= 2 * MIN_VCO
    decreases MIN_VCO - freq
  {
    var n := Doublings(2 * freq);
    assert freq * (2 * Pow2(n)) == (2 * freq) * Pow2(n);
    if 2 * freq <= MIN_VCO {
      DoublingsReachBand(2 * freq);
    } else {
      assert n == 0 && (2 * freq) * 1 == 2 * freq;
    }
  }

  lemma DoublingsBound(freq: nat)
    requires 70000000 <= freq <= MIN_VCO
    ensures 1 <= Doublings(freq) <= 7
  {
    var f := freq;
    assert Doublings(128 * f) == 0;
    assert 64 * f <= MIN_VCO ==> Doublings(64 * f) == 1;
    assert Doublings(64 * f) <= 1;
    assert Doublings(32 * f) <= 2;
    assert Doublings(16 * f) <= 3;
    assert Doublings(8 * f) <= 4;
    assert Doublings(4 * f) <= 5;
    assert Doublings(2 * f) <= 6;
  }

  /** Every accepted carrier gives words that fit the registers: 11 bits of
      integer, 23 bits of fraction, a divider code 0..6, and a VCO frequency
      in the band (6 GHz, 12 GHz]. */
  lemma WordsFitRegisters(freq: nat, parent: nat, ad9363a: bool)
    requires ValidCarrier(freq, ad9363a)
    requires MIN_REF <= parent <= MAX_REF
    ensures var w := WordsFor(freq, parent);
            && MIN_VCO < w.vco <= 2 * MIN_VCO && w.vco == freq * Pow2(w.vcoDiv + 1)
            && 0 <= w.vcoDiv <= 6
            && w.integer < 0x800
            && w.fract <= MODULUS < 0x80_0000
  {
    var w := WordsFor(freq, parent);
    DoublingsReachBand(freq);
    DoublingsBound(freq);
    DivBounds(w.vco, parent);
    MulMonotone(w.integer, MIN_REF, parent);
    var r := w.vco % parent;
    DivBounds(r * MODULUS + parent / 2, parent);
    MulMonotone(MODULUS, r, parent - 1);
    assert parent * (MODULUS + 1) == parent * MODULUS + parent;
    Cancel(parent, w.fract, MODULUS + 1);
  }

  /** The fraction is rounded to the nearest step, so the remainder is missed by
      half a step and one truncation. */
  lemma FractionError(r: nat, p: nat, pf: int)
    requires p <= MAX_REF && pf <= r * MODULUS + p / 2 < pf + p
    ensures -5 <= pf / MODULUS - r <= 4
  {
  }

  /** At the VCO the words miss by no more than that. */
  lemma VcoError(vco: nat, parent: nat)
    requires 0 < parent <= MAX_REF
    ensures var fract := ((vco % parent) * MODULUS + parent / 2) / parent;
            -5 <= (parent * fract) / MODULUS + parent * (vco / parent) - vco <= 4
  {
    var r := vco % parent;
    var fract := (r * MODULUS + parent / 2) / parent;
    assert vco == parent * (vco / parent) + r;
    DivBounds(r * MODULUS + parent / 2, parent);
    FractionError(r, parent, parent * fract);
  }

  /** Dividing by at least two halves that error. */
  lemma ScaledError(freq: nat, reached: nat, s: nat)
    requires s >= 2 && -5 <= reached - freq * s <= 4
    ensures -3 <= reached / s - freq <= 2
  {
    var q := reached / s;
    DivBounds(reached, s);
    Distribute(s, freq, 3);
    Distribute(s, freq, -3);
    Distribute(s, q, 1);
    assert s * freq == freq * s;
    Cancel(s, q, freq + 3);
    Cancel(s, freq - 3, q + 1);
  }

  /** Recomputing the carrier from the words gives it back within 3 Hz. */
  lemma CarrierRoundTrip(freq: nat, parent: nat, ad9363a: bool)
    requires ValidCarrier(freq, ad9363a)
    requires MIN_REF <= parent <= MAX_REF
    ensures var w := WordsFor(freq, parent);
            w.vcoDiv >= 0 && -3 <= FreqOf(w.integer, w.fract, w.vcoDiv, parent) - freq <= 2
  {
    WordsFitRegisters(freq, parent, ad9363a);
    var w := WordsFor(freq, parent);
    VcoError(w.vco, parent);
    ScaledError(freq, (parent * w.fract) / MODULUS + parent * w.integer, Pow2(w.vcoDiv + 1));
  }
}
