/** Fractional-N arithmetic of the baseband PLL. The programmed words are an
    integer part and a fraction in units of parent / MODULUS. */
module Bbpll {
  import opened CTypes

  const MODULUS := 2088960
  const MIN_FREQ := 715000000
  const MAX_FREQ := 1430000000

  function IntegerWord(rate: nat, parent: nat): nat
    requires parent > 0
  {
    rate / parent
  }

  function FractWord(rate: nat, parent: nat): nat
    requires parent > 0
  {
    ((rate % parent) * MODULUS + parent / 2) / parent
  }

  /** The frequency that a pair of words stands for. */
  function RateOf(integer: nat, fract: nat, parent: nat): nat {
    (parent * fract) / MODULUS + parent * integer
  }

  /** The rate reached when `rate` is programmed without any clamping. */
  function Achieved(rate: nat, parent: nat): nat
    requires parent > 0
  {
    RateOf(IntegerWord(rate, parent), FractWord(rate, parent), parent)
  }

  /** ad9361_bbpll_round_rate */
  function RoundRate(rate: nat, parent: nat): nat
    requires parent > 0
  {
    if rate > MAX_FREQ then MAX_FREQ
    else if rate < MIN_FREQ then MIN_FREQ
    else Achieved(rate, parent)
  }

  lemma FractWithinModulus(rate: nat, parent: nat)
    requires parent > 0
    ensures FractWord(rate, parent) <= MODULUS
  {
    var f := FractWord(rate, parent);
    DivBounds((rate % parent) * MODULUS + parent / 2, parent);
    assert parent * (MODULUS + 1) == parent * MODULUS + parent;
    MulMonotone(parent, rate % parent, parent - 1);
    assert parent * f < parent * (MODULUS + 1);
    Cancel(parent, f, MODULUS + 1);
  }

  /** Programming a rate and reading it back misses it by at most half a
      fraction step plus the final truncation: 17 Hz for a 70 MHz reference. */
  lemma RoundingError(rate: nat, parent: nat)
    requires parent > 0
    ensures 2 * MODULUS * (Achieved(rate, parent) - rate) <= parent
    ensures 2 * MODULUS * (rate - Achieved(rate, parent)) <= parent + 2 * MODULUS
    ensures parent <= 70000000 ==> -17 <= Achieved(rate, parent) - rate <= 16
  {
    var i, r, f := rate / parent, rate % parent, FractWord(rate, parent);
    DivBounds(rate, parent);
    assert rate == parent * i + r;
    DivBounds(r * MODULUS + parent / 2, parent);
    DivBounds(parent * f, MODULUS);
  }

  /** A rate that some register contents stand for is programmed back exactly,
      also when the fraction has been rounded up to the modulus. */
  lemma RegisterRatesAreFixed(integer: nat, fract: nat, parent: nat)
    requires parent / 2 >= MODULUS - 1
    ensures Achieved(RateOf(integer, fract, parent), parent) == RateOf(integer, fract, parent)
  {
    var q, f := fract / MODULUS, fract % MODULUS;
    var g, e := (parent * f) / MODULUS, (parent * f) % MODULUS;
    WholeStepsCarry(integer, fract, parent);
    assert RateOf(integer, fract, parent) == parent * (integer + q) + g;
    MulMonotone(parent, f, MODULUS - 1);
    assert parent * (MODULUS - 1) == parent * MODULUS - parent;
    assert g < parent;
    QuotientIs(parent * (integer + q) + g, parent, integer + q);
    QuotientIs(g * MODULUS + parent / 2, parent, f);
  }

  /** ad9361_bbpll_round_rate leaves a rate of the registers alone exactly when it
      lies inside the BBPLL range; the clamps move every other one. */
  lemma RoundRateFixes(integer: nat, fract: nat, parent: nat)
    requires parent / 2 >= MODULUS - 1
    ensures var rate := RateOf(integer, fract, parent);
            RoundRate(rate, parent) == rate <==> MIN_FREQ <= rate <= MAX_FREQ
  {
    RegisterRatesAreFixed(integer, fract, parent);
  }

  /** Rounding twice is rounding once exactly when the first rounding has not
      left the range. */
  lemma RoundedOnce(rate: nat, parent: nat)
    requires parent / 2 >= MODULUS - 1 && MIN_FREQ <= rate <= MAX_FREQ
    ensures var round := RoundRate(rate, parent);
            RoundRate(round, parent) == round <==> MIN_FREQ <= round <= MAX_FREQ
  {
    RoundRateFixes(IntegerWord(rate, parent), FractWord(rate, parent), parent);
  }

  /** Registers below the range: 10 times 40 MHz is rounded to 715 MHz. */
  lemma SlowRegistersAreMoved()
    ensures RateOf(10, 0, 40000000) == 400000000 && RoundRate(400000000, 40000000) == 715000000
  {
  }

  /** The top of the range is not a multiple of a step of 70 MHz: it is rounded up,
      and rounding that comes back down. */
  lemma TopIsRoundedOut()
    ensures RoundRate(1430000000, 70000000) == 1430000014 && RoundRate(1430000014, 70000000) == 1430000000
  {
  }

  lemma WholeStepsCarry(integer: nat, fract: nat, parent: nat)
    ensures RateOf(integer, fract, parent) == RateOf(integer + fract / MODULUS, fract % MODULUS, parent)
  {
    var q, f := fract / MODULUS, fract % MODULUS;
    assert parent * fract == parent * (MODULUS * q) + parent * f by { Distribute(parent, MODULUS * q, f); }
    assert parent * (MODULUS * q) == MODULUS * (parent * q);
    assert (MODULUS * (parent * q) + parent * f) / MODULUS == parent * q + (parent * f) / MODULUS;
    Distribute(parent, integer, q);
  }

  /** Outside that range a register rate can be missed: with a reference of
      7 Hz the registers can hold 4 Hz, but programming 4 Hz gives 3 Hz. */
  lemma SmallReferenceLosesAHertz()
    ensures RateOf(0, 1193692, 7) == 4 && Achieved(4, 7) == 3
  {
  }
}
