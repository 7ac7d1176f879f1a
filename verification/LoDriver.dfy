/** The driver operations on the RF synthesisers, as they update the device and
    the driver's own fields. */
module LoDriver {
  import opened CTypes
  import opened Device
  import opened LocalOscillator
  import Rfpll
  import FastLock
  import Synth

  /** The transfers of ad9361_fastlock_load: each control byte commits the word
      staged by the previous transfer while the next one is staged. */
  method ProgramProfile(d0: Device, isTx: bool, profile: nat, values: seq<bv8>) returns (d: Device)
    requires profile < 8 && |values| == FastLock.WORDS
    ensures d == FastLock.Loaded(d0, isTx, profile, values)
  {
    var o := Offs(isTx);
    FastLock.StagedStart(d0, isTx, profile, values);
    d := WriteMany(d0, FAST_DATA + o, [values[0], FastLock.AddrByte(profile, 0)]);
    var i := 1;
    while i < FastLock.WORDS
      invariant 1 <= i <= FastLock.WORDS
      invariant FastLock.Staged(d0, d, isTx, profile, values, i)
    {
      FastLock.StagedTurn(d0, d, isTx, profile, values, i);
      d := WriteMany(d, FAST_CTRL + o, [0x03, 0, values[i], FastLock.AddrByte(profile, i)]);
      i := i + 1;
    }
    FastLock.StagedEnd(d0, d, isTx, profile, values);
    d := Write(d, FAST_CTRL + o, 0x03);
    d := Write(d, FAST_CTRL + o, 0);
  }

  class Phy {
    const config: Config
    var dev: Device
    var rx: ValidSide
    var tx: ValidSide

    constructor (config: Config, dev: Device, rx: ValidSide, tx: ValidSide)
      ensures this.config == config && State() == Lo(dev, rx, tx)
    {
      this.config, this.dev, this.rx, this.tx := config, dev, rx, tx;
    }

    function State(): Lo
      reads this
    {
      Lo(dev, rx, tx)
    }

    method PutSide(isTx: bool, s: ValidSide)
      modifies this
      ensures State() == old(State()).With(isTx, s)
    {
      if isTx { tx := s; } else { rx := s; }
    }

    /** ad9361_fastlock_load */
    method FastLockLoad(isTx: bool, profile: nat, values: seq<bv8>)
      requires profile < 8 && |values| == FastLock.WORDS
      modifies this
      ensures State() == Load(old(State()), isTx, profile, values)
    {
      dev := ProgramProfile(dev, isTx, profile, values);
      var s := State().Of(isTx);
      PutSide(isTx, s.(entries := s.entries[profile := Entry(true, values[15], values[15])]));
    }

    /** ad9361_fastlock_store */
    method FastLockStore(isTx: bool, profile: nat)
      requires profile < 8
      modifies this
      ensures State() == Load(old(State()), isTx, profile, Snapshot(old(dev), isTx))
    {
      FastLockLoad(isTx, profile, Snapshot(dev, isTx));
    }

    /** ad9361_fastlock_save: the words of a profile, in order. */
    method FastLockSave(isTx: bool, profile: nat) returns (values: seq<bv8>)
      requires profile < 8
      modifies this`dev
      ensures |values| == FastLock.WORDS
      ensures forall k :: 0 <= k < FastLock.WORDS ==> values[k] == FastLock.WordAt(old(dev), isTx, profile, k)
      ensures dev == FastLock.Select(old(dev), isTx, profile, 15)
    {
      values := [];
      var i := 0;
      while i < FastLock.WORDS
        invariant 0 <= i <= FastLock.WORDS && |values| == i
        invariant forall k :: 0 <= k < i ==> values[k] == FastLock.WordAt(old(dev), isTx, profile, k)
        invariant dev == if i == 0 then old(dev) else FastLock.Select(old(dev), isTx, profile, i - 1)
      {
        FastLock.ReadValLaw(dev, isTx, profile, i);
        FastLock.ReadValLaw(old(dev), isTx, profile, i);
        if i > 0 {
          FastLock.ReadValLaw(old(dev), isTx, profile, i - 1);
        }
        values := values + [FastLock.ReadVal(dev, isTx, profile, i)];
        dev := FastLock.Select(dev, isTx, profile, i);
        i := i + 1;
      }
    }

    /** ad9361_fastlock_recall */
    method FastLockRecall(isTx: bool, profile: nat) returns (ok: bool)
      requires profile < 8
      modifies this
      ensures ok == old(State()).Of(isTx).entries[profile].initialised
      ensures ok ==> Recall(config, old(State()), isTx, profile) == Ok(State())
      ensures !ok ==> State() == old(State())
    {
      var s := State().Of(isTx);
      if !s.entries[profile].initialised {
        return false;
      }
      var st := State();
      hide Activate, NextAlc, CurrentAlc, AlcRewrite;
      var written := NextAlc(CurrentAlc(st, isTx), s.entries[profile]);
      dev := AlcRewrite(st, isTx, profile, written);
      dev := Activate(config, dev, st, isTx, profile);
      PutSide(isTx, s.(profile := profile + 1,
                       entries := s.entries[profile := s.entries[profile].(alcWritten := written)]));
      ok := true;
    }

    /** ad9361_rfpll_int_set_rate: the loop programs the given synthesiser, and a
        second time the other one when the table kinds have to be reconciled. */
    method RfpllIntSetRate(isTx: bool, rate: u32, parent: nat) returns (ok: bool)
      requires parent > 0
      modifies this
      ensures ok == Valid(config, rate)
      ensures State() == SetLo(config, old(State()), isTx, rate, parent)
    {
      LeaveFastLock(isTx);
      ghost var st1 := State();
      var r := Rfpll.CalcDividers(Rfpll.FromClk(rate), parent, config.ad9363a);
      if r.Err? {
        return false;
      }
      var w := r.value;
      PutSide(isTx, State().Of(isTx).(lo := rate, cachedDiv := w.vcoDiv));
      SetSkipCal(isTx, true);
      ghost var first := FirstTurn(config, st1, isTx, rate, parent);
      ghost var last := Fixup(config, first, isTx, WordsOf(rate, parent), parent);
      NoThirdTurn(config, st1, isTx, rate, parent);
      hide Tune, Leave;
      var target, fixupOther := isTx, true;
      ghost var turns := 0;
      while fixupOther
        invariant turns <= 2
        invariant turns == 0 ==>
                    w == WordsOf(rate, parent) && fixupOther && Tune(config, State(), target, w, parent) == first
        invariant turns == 1 ==> fixupOther == NeedsFixup(config, first)
        invariant turns == 1 && fixupOther ==> Tune(config, State(), target, w, parent) == last
        invariant turns >= 1 && !fixupOther ==> State() == last
        invariant turns == 2 ==> !fixupOther
        decreases 2 - turns
      {
        fixupOther := false;
        TuneOnce(target, w, parent);
        if NeedsFixup(config, State()) {
          target := !isTx;
          if tx.lo != rx.lo {
            var r := Rfpll.CalcDividers(Rfpll.FromClk(State().Of(!isTx).lo), parent, config.ad9363a);
            if r.Ok? {
              w := r.value;
            }
            LeaveFastLock(!isTx);
          }
          fixupOther := true;
        }
        turns := turns + 1;
      }
      SetSkipCal(isTx, false);
      ok := true;
    }

    /** ad9361_fastlock_prepare with prepare cleared. */
    method LeaveFastLock(isTx: bool)
      modifies this
      ensures State() == Leave(old(State()), isTx)
    {
      if State().Of(isTx).profile != 0 {
        dev := Leave(State(), isTx).dev;
        PutSide(isTx, State().Of(isTx).(profile := 0));
      }
    }

    method SetSkipCal(isTx: bool, enable: bool)
      modifies this
      ensures State() == SkipCal(config, old(State()), isTx, enable)
    {
      if config.tddSkipVcoCal {
        dev := Script(dev, [VcoCal(isTx, enable)]);
      }
    }

    /** ad9361_rfpll_vco_init, then the frequency words and the divider. */
    method TuneOnce(isTx: bool, w: Rfpll.Words, parent: nat)
      modifies this
      ensures State() == Tune(config, old(State()), isTx, w, parent)
    {
      hide Synth.Program, Synth.LutFrom;
      var range := Synth.TableIndex(parent);
      Synth.LastEntry();
      var i := Synth.VcoIndex(Synth.VCO_MHZ, w.vco);
      var tdd := !(config.fdd && !config.fddIndependent && tx.lo != rx.lo);
      var div := if w.vcoDiv < 0 then 0 else w.vcoDiv;
      dev := Synth.Program(dev, isTx, w.integer, w.fract, div, config.tables(tdd, range, i));
      PutSide(isTx, State().Of(isTx).(tdd := tdd));
    }
  }
}
