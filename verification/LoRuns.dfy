/** Which registers the operations on the synthesisers leave alone. */
module LoFrames {
  import opened Bytes
  import opened Registers
  import opened Device
  import opened LocalOscillator
  import FastLock
  import Rfpll
  import Synth

  /** The registers of one synthesiser that no operation but its own writes. */
  predicate InBlock(a: nat, b: bool) { PFD_CONFIG + Offs(b) <= a <= FAST_CTRL + Offs(b) }

  /** Among these, VCO and loop filter, and the fast-lock setup register. */
  predicate IsVco(a: nat, b: bool) { FORCE_VCO_TUNE_1 + Offs(b) <= a <= VCO_VARACTOR_CTRL_1 + Offs(b) }

  predicate IsSetup(a: nat, b: bool) { a == FAST_SETUP + Offs(b) }

  lemma BlocksApart(a: nat, b: bool)
    ensures IsVco(a, b) || IsSetup(a, b) ==> InBlock(a, b) && !InBlock(a, !b)
    ensures IsVco(a, b) ==> !IsSetup(a, b)
  {
  }

  lemma SkipCalFrame(c: Config, st: Lo, tx: bool, enable: bool, a: nat)
    requires a < SIZE && a != PFD_CONFIG + Offs(tx)
    ensures SkipCal(c, st, tx, enable).dev.regs[a] == st.dev.regs[a]
  {
    ScriptElsewhere(st.dev, [VcoCal(tx, enable)], a);
  }

  /** Programming writes the words, the divider, and what prepares the VCO. */
  lemma ProgramFrame(d: Device, tx: bool, integer: nat, fract: nat, vcoDiv: nat, t: Synth.Tuning, a: nat)
    requires a < SIZE && (!InBlock(a, tx) || IsSetup(a, tx)) && a != RFPLL_DIVIDERS
    ensures Synth.Program(d, tx, integer, fract, vcoDiv, t).regs[a] == d.regs[a]
  {
    var o := Offs(tx);
    hide Script, Synth.VcoScript, Synth.Packed, Synth.VcoInit;
    VcoInitFrame(d, tx, t, a);
    PutWordsFrame(Synth.VcoInit(d, tx, t), tx, integer, fract, vcoDiv, a);
  }

  lemma VcoInitFrame(d: Device, tx: bool, t: Synth.Tuning, a: nat)
    requires a < SIZE && (!InBlock(a, tx) || IsSetup(a, tx))
    ensures Synth.VcoInit(d, tx, t).regs[a] == d.regs[a]
  {
    var ps := Synth.VcoScript(Offs(tx), t);
    forall j | 0 <= j < |ps| ensures ps[j].f.reg != a {
      Synth.RegisterIs(Offs(tx), t, j);
      hide Synth.VcoScript;
    }
    ScriptElsewhere(d, ps, a);
  }

  lemma PutWordsFrame(d: Device, tx: bool, integer: nat, fract: nat, vcoDiv: nat, a: nat)
    requires a < SIZE && a != RFPLL_DIVIDERS
    requires a < INTEGER_BYTE_0 + Offs(tx) || FRACT_BYTE_2 + Offs(tx) < a
    ensures Synth.PutWords(d, tx, integer, fract, vcoDiv).regs[a] == d.regs[a]
  {
    hide Synth.Packed, WriteMany, Merged;
    Synth.ProgramBytes(d, tx, Synth.Packed(integer, fract, d.regs[INTEGER_BYTE_1 + Offs(tx)]));
  }

  lemma TuneFrame(c: Config, st: Lo, tx: bool, w: Rfpll.Words, parent: nat, a: nat)
    requires a < SIZE && (!InBlock(a, tx) || IsSetup(a, tx)) && a != RFPLL_DIVIDERS
    ensures Tune(c, st, tx, w, parent).dev.regs[a] == st.dev.regs[a]
  {
    hide Synth.Program, Synth.TableIndex, Synth.LutRow;
    ProgramFrame(st.dev, tx, w.integer, w.fract, if w.vcoDiv < 0 then 0 else w.vcoDiv,
                 c.tables(UsesTdd(c, st), Synth.TableIndex(parent), Synth.LutRow(w.vco)), a);
  }

  lemma LeaveFrame(st: Lo, tx: bool, a: nat)
    requires a < SIZE && !InBlock(a, tx) && a != ENSM_CONFIG_2
    ensures Leave(st, tx).dev.regs[a] == st.dev.regs[a]
  {
    if st.Of(tx).profile != 0 {
      ScriptElsewhere(st.dev, LeaveScript(tx), a);
    }
  }

  lemma LoadFrame(st: Lo, tx: bool, profile: nat, values: seq<bv8>, a: nat)
    requires profile < 8 && |values| == FastLock.WORDS
    requires a < SIZE && !(FAST_ADDR + Offs(tx) <= a <= FAST_CTRL + Offs(tx))
    ensures Load(st, tx, profile, values).dev.regs[a] == st.dev.regs[a]
  {
  }

  lemma RewriteFrame(st: Lo, tx: bool, profile: nat, alc: bv8, a: nat)
    requires profile < 8 && a < SIZE && !(FAST_ADDR + Offs(tx) <= a <= FAST_CTRL + Offs(tx))
    ensures AlcRewrite(st, tx, profile, alc).regs[a] == st.dev.regs[a]
  {
    hide FastLock.AddrByte, CurrentAlc;
  }

  lemma ActivateFrame(c: Config, d: Device, st: Lo, tx: bool, profile: nat, a: nat)
    requires a < SIZE && (!InBlock(a, tx) || IsVco(a, tx)) && a != ENSM_CONFIG_2
    ensures Activate(c, d, st, tx, profile).regs[a] == d.regs[a]
  {
    EnterFrame(c, d, st, tx, profile, a);
    hide Enter;
    var setup := ToByte((profile % 8) * 32 + (if (if tx then c.txPinctrl else c.rxPinctrl) then 2 else 0) + 1);
    ScriptElsewhere(Enter(c, d, st, tx, profile), [Plain(FAST_SETUP + Offs(tx), setup)], a);
  }

  lemma EnterFrame(c: Config, d: Device, st: Lo, tx: bool, profile: nat, a: nat)
    requires a < SIZE && (!InBlock(a, tx) || IsVco(a, tx)) && a != ENSM_CONFIG_2
    ensures Enter(c, d, st, tx, profile).regs[a] == d.regs[a]
  {
    if st.Of(tx).profile == 0 {
      hide ToByte;
      var delay := ToByte((if tx then c.txDelayNs else c.rxDelayNs) / 250);
      var ps := [Plain(FAST_INIT_DELAY + Offs(tx), delay),
                 Plain(FAST_SETUP + Offs(tx), ToByte((profile % 8) * 32 + 1))];
      ScriptElsewhere(d, ps, a);
      var d2 := Write(Script(d, ps), FAST_CTRL + Offs(tx), 0);
      ScriptElsewhere(d2, [SynthReady(tx, 1), VcoCal(tx, false)], a);
    }
  }
}

/** Which entry of the synthesiser tables each synthesiser runs on. */
module TuningTables {
  import opened CTypes
  import opened Bytes
  import opened Registers
  import opened Device
  import opened LocalOscillator
  import opened LoFrames
  import FastLock
  import Rfpll
  import Synth

  // ---- the entry, without the code that looks it up ----

  /** The references the three ranges of the tables are made for: 40, 60 and 80 MHz. */
  function Nominal(range: nat): nat { 40000000 + 20000000 * range }

  function Distance(x: nat, y: nat): nat { if x < y then y - x else x - y }

  /** The range whose nominal reference is nearest; half way it is the middle one. */
  predicate NearestRange(range: nat, ref: nat) {
    range < 3 && forall r :: 0 <= r < 3 && r != range ==>
      || Distance(ref, Nominal(range)) < Distance(ref, Nominal(r))
      || (range == 1 && Distance(ref, Nominal(1)) == Distance(ref, Nominal(r)))
  }

  /** The first row that is not above the VCO frequency in MHz. */
  predicate FirstRow(row: nat, vco: nat) {
    && row < |Synth.VCO_MHZ| && Synth.VCO_MHZ[row] <= vco / 1000000
    && forall h :: 0 <= h < row ==> Synth.VCO_MHZ[h] > vco / 1000000
  }

  /** A power-of-two multiple of the carrier in the VCO band (6 GHz, 12 GHz]. */
  predicate IsMultiple(vco: nat, carrier: nat, n: nat) {
    vco == carrier * Pow2(n) && Rfpll.MIN_VCO < vco <= 2 * Rfpll.MIN_VCO
  }

  ghost predicate IsVcoOf(vco: nat, carrier: nat) { exists n :: IsMultiple(vco, carrier, n) }

  lemma RangeIs(range: nat, ref: nat)
    ensures NearestRange(range, ref) <==> range == Synth.TableIndex(ref)
  {
    assert Nominal(0) == 40000000 && Nominal(1) == 60000000 && Nominal(2) == 80000000;
  }

  lemma RowIs(row: nat, vco: nat)
    ensures FirstRow(row, vco) <==> row == Synth.LutRow(vco) < Synth.LUT_SIZE
  {
    Synth.LastEntry();
    var r := Synth.LutFrom(Synth.VCO_MHZ, vco / 1000000, 0);
    hide Synth.LutFrom;
    if r < Synth.LUT_SIZE {
      assert Synth.VCO_MHZ[r] <= vco / 1000000;
    }
  }

  lemma {:induction false} PowersGrow(n: nat, m: nat)
    requires n < m
    ensures 2 * Pow2(n) <= Pow2(m)
  {
    if n < m - 1 {
      PowersGrow(n, m - 1);
    }
  }

  /** There is only one such multiple: twice one in the band is above it. */
  lemma OneMultiple(x: nat, y: nat, carrier: nat, n: nat, m: nat)
    requires IsMultiple(x, carrier, n) && IsMultiple(y, carrier, m)
    ensures x == y
  {
    assert carrier * (2 * Pow2(n)) == 2 * (carrier * Pow2(n)) && carrier * (2 * Pow2(m)) == 2 * (carrier * Pow2(m));
    if n < m {
      PowersGrow(n, m);
      MulMonotone(carrier, 2 * Pow2(n), Pow2(m));
    } else if m < n {
      PowersGrow(m, n);
      MulMonotone(carrier, 2 * Pow2(m), Pow2(n));
    }
  }

  lemma VcoIs(c: Config, lo: u32, parent: Ref, vco: nat)
    requires Valid(c, lo)
    ensures IsVcoOf(vco, Rfpll.FromClk(lo)) <==> vco == WordsOf(lo, parent).vco
  {
    var w := WordsOf(lo, parent);
    Rfpll.WordsFitRegisters(Rfpll.FromClk(lo), parent, c.ad9363a);
    hide Rfpll.WordsFor;
    assert IsMultiple(w.vco, Rfpll.FromClk(lo), w.vcoDiv + 1);
    hide Pow2, WordsOf;
    forall n | IsMultiple(vco, Rfpll.FromClk(lo), n) ensures vco == w.vco {
      OneMultiple(vco, w.vco, Rfpll.FromClk(lo), n, w.vcoDiv + 1);
    }
  }

  // ---- the entry a side holds ----

  function EntryOf(c: Config, tdd: bool, lo: u32, parent: Ref): Synth.Tuning
    requires lo > 0
  {
    c.tables(tdd, Synth.TableIndex(parent), Synth.LutRow(WordsOf(lo, parent).vco))
  }

  /** VCO and loop filter of a side are set up from a table entry. */
  predicate HoldsEntry(d: Device, tx: bool, t: Synth.Tuning) {
    Synth.VcoHolds(d.regs, Offs(tx), t) && Synth.FilterHolds(d.regs, Offs(tx), t)
  }

  /** A side that has been given an LO is set up for it, with the kind of table its
      flag says, for a reference rate. */
  predicate SideTabled(c: Config, st: Lo, tx: bool, parent: Ref) {
    var s := st.Of(tx);
    s.lo != 0 ==> Valid(c, s.lo) && HoldsEntry(st.dev, tx, EntryOf(c, s.tdd, s.lo, parent))
  }

  /** Nothing a table entry says has changed between two devices. */
  predicate SameVco(d: Device, e: Device, tx: bool) {
    && (forall a :: 0 <= a < SIZE && IsVco(a, tx) && a != FORCE_VCO_TUNE_1 + Offs(tx) ==> e.regs[a] == d.regs[a])
    && Extracted(e.regs[FORCE_VCO_TUNE_1 + Offs(tx)], 0x78, 3)
         == Extracted(d.regs[FORCE_VCO_TUNE_1 + Offs(tx)], 0x78, 3)
  }

  lemma SameVcoHolds(d: Device, e: Device, tx: bool, t: Synth.Tuning)
    requires SameVco(d, e, tx)
    ensures HoldsEntry(d, tx, t) ==> HoldsEntry(e, tx, t)
  {
    hide Extracted;
  }

  lemma KeptSide(c: Config, st: Lo, e: Lo, tx: bool, parent: Ref)
    requires SideTabled(c, st, tx, parent) && SameVco(st.dev, e.dev, tx)
    requires e.Of(tx).lo == st.Of(tx).lo && e.Of(tx).tdd == st.Of(tx).tdd
    ensures SideTabled(c, e, tx, parent)
  {
    hide HoldsEntry, SameVco, EntryOf, Valid;
    if st.Of(tx).lo != 0 {
      SameVcoHolds(st.dev, e.dev, tx, EntryOf(c, st.Of(tx).tdd, st.Of(tx).lo, parent));
    }
  }

  lemma SkipCalVco(c: Config, st: Lo, tx: bool, enable: bool, b: bool)
    ensures SameVco(st.dev, SkipCal(c, st, tx, enable).dev, b)
  {
    hide SkipCal, Extracted;
    forall a | 0 <= a < SIZE && IsVco(a, b) ensures SkipCal(c, st, tx, enable).dev.regs[a] == st.dev.regs[a] {
      SkipCalFrame(c, st, tx, enable, a);
    }
  }

  lemma OtherVco(d: Device, e: Device, tx: bool)
    requires forall a :: 0 <= a < SIZE && IsVco(a, tx) ==> e.regs[a] == d.regs[a]
    ensures SameVco(d, e, tx)
  {
    hide Extracted;
  }

  /** Leaving fast lock only pulses the tune bit beside the calibration offset. */
  lemma LeaveVco(st: Lo, tx: bool, b: bool)
    ensures SameVco(st.dev, Leave(st, tx).dev, b)
  {
    hide Extracted, Merged;
    if st.Of(tx).profile != 0 {
      var e := Leave(st, tx).dev;
      forall a | 0 <= a < SIZE && IsVco(a, b) && a != FORCE_VCO_TUNE_1 + Offs(tx) ensures e.regs[a] == st.dev.regs[a] {
        ScriptElsewhere(st.dev, LeaveScript(tx), a);
      }
      TuneBitPulse(st.dev, tx);
      if b != tx {
        OtherVco(st.dev, e, b);
      }
    }
  }

  lemma TuneBitPulse(d: Device, tx: bool)
    ensures var a := FORCE_VCO_TUNE_1 + Offs(tx);
            Extracted(Script(d, LeaveScript(tx)).regs[a], 0x78, 3) == Extracted(d.regs[a], 0x78, 3)
  {
    var a, ps := FORCE_VCO_TUNE_1 + Offs(tx), LeaveScript(tx);
    TwoWrites(d, ps, a);
    BitBesideField(d.regs[a]);
  }

  lemma BitBesideField(b: bv8)
    ensures Extracted(Merged(Merged(b, 0x01, 0, 1), 0x01, 0, 0), 0x78, 3) == Extracted(b, 0x78, 3)
  {
  }

  lemma TwoWrites(d: Device, ps: seq<Put>, a: nat)
    requires a == FORCE_VCO_TUNE_1 || a == FORCE_VCO_TUNE_1 + TX_OFFSET
    requires ps == LeaveScript(a != FORCE_VCO_TUNE_1)
    ensures Script(d, ps).regs[a] == Merged(Merged(d.regs[a], 0x01, 0, 1), 0x01, 0, 0)
  {
    hide Merged;
    var tx := a != FORCE_VCO_TUNE_1;
    var d1 := WriteField(d, ps[0].f, ps[0].val);
    var d2 := WriteField(d1, ps[1].f, ps[1].val);
    var d3 := WriteField(d2, ps[2].f, ps[2].val);
    assert ps[1..][1..] == ps[2..] && ps[2..][1..] == ps[3..];
    assert Script(d, ps) == Script(d1, ps[1..]) == Script(d2, ps[2..]) == Script(d3, ps[3..]);
    assert d3.regs[a] == Merged(d.regs[a], 0x01, 0, 1);
    ScriptAt(d3, ps[3..], 1);
  }

  // ---- tuning ----

  lemma ProgramHolds(d: Device, tx: bool, integer: nat, fract: nat, vcoDiv: nat, t: Synth.Tuning)
    ensures HoldsEntry(Synth.Program(d, tx, integer, fract, vcoDiv, t), tx, t)
  {
    var v := Synth.VcoInit(d, tx, t);
    var e := Synth.Program(d, tx, integer, fract, vcoDiv, t);
    Synth.VcoInitReads(d, tx, t);
    forall a | 0 <= a < SIZE && IsVco(a, tx) ensures e.regs[a] == v.regs[a] {
      PutWordsFrame(v, tx, integer, fract, vcoDiv, a);
      hide Synth.PutWords, Synth.VcoInit;
    }
    hide Synth.PutWords, Synth.VcoInit, HoldsEntry;
    OtherVco(v, e, tx);
    assert HoldsEntry(v, tx, t) by { HoldsIs(v, tx, t); }
    SameVcoHolds(v, e, tx, t);
  }

  lemma HoldsIs(d: Device, tx: bool, t: Synth.Tuning)
    ensures HoldsEntry(d, tx, t) <==> Synth.VcoHolds(d.regs, Offs(tx), t) && Synth.FilterHolds(d.regs, Offs(tx), t)
  {
    hide Synth.VcoHolds, Synth.FilterHolds;
  }

  /** One turn of the loop sets a side up for its LO; the other one stays as it is. */
  lemma TuneTables(c: Config, st: Lo, tx: bool, parent: Ref)
    requires Valid(c, st.Of(tx).lo)
    ensures var e := Tune(c, st, tx, WordsOf(st.Of(tx).lo, parent), parent);
            && SideTabled(c, e, tx, parent) && SameVco(st.dev, e.dev, !tx)
            && e.Of(tx) == st.Of(tx).(tdd := UsesTdd(c, st)) && e.Of(!tx) == st.Of(!tx)
  {
    ValidIsPositive(c, st.Of(tx).lo);
    hide Synth.Program, Synth.TableIndex, Synth.LutRow, HoldsEntry, Rfpll.WordsFor, Rfpll.ValidCarrier;
    var w := WordsOf(st.Of(tx).lo, parent);
    var e := Tune(c, st, tx, w, parent);
    ProgramHolds(st.dev, tx, w.integer, w.fract, if w.vcoDiv < 0 then 0 else w.vcoDiv,
                 c.tables(UsesTdd(c, st), Synth.TableIndex(parent), Synth.LutRow(w.vco)));
    forall a | 0 <= a < SIZE && IsVco(a, !tx) ensures e.dev.regs[a] == st.dev.regs[a] {
      TuneFrame(c, st, tx, w, parent, a);
    }
    hide Tune;
    OtherVco(st.dev, e.dev, !tx);
  }

  lemma FirstTurnTables(c: Config, st: Lo, tx: bool, rate: u32, parent: Ref, other: Ref)
    requires Valid(c, rate) && SideTabled(c, st, !tx, other)
    ensures var e := FirstTurn(c, st, tx, rate, parent);
            SideTabled(c, e, tx, parent) && SideTabled(c, e, !tx, other)
  {
    hide Tune, SkipCal, WordsOf, Valid, SideTabled, SameVco;
    ValidIsPositive(c, rate);
    var w := WordsOf(rate, parent);
    var st2 := st.With(tx, st.Of(tx).(lo := rate, cachedDiv := w.vcoDiv));
    var st3 := SkipCal(c, st2, tx, true);
    SkipLaw(c, st2, tx, true, Refs(parent, parent));
    SkipCalVco(c, st2, tx, true, !tx);
    KeptSide(c, st, st3, !tx, other);
    TuneTables(c, st3, tx, parent);
    KeptSide(c, st3, FirstTurn(c, st, tx, rate, parent), !tx, other);
  }

  lemma FixupTables(c: Config, st: Lo, tx: bool, parent: Ref, other: Ref)
    requires Valid(c, st.Of(tx).lo) && SideTabled(c, st, tx, parent) && SideTabled(c, st, !tx, other)
    requires st.Of(!tx).tdd ==> st.Of(!tx).lo != 0
    requires c.Shared() && st.tx.lo != st.rx.lo ==> !st.Of(tx).tdd
    ensures var e := Fixup(c, st, tx, WordsOf(st.Of(tx).lo, parent), parent);
            && SideTabled(c, e, tx, parent)
            && SideTabled(c, e, !tx, if NeedsFixup(c, st) then parent else other)
  {
    hide Tune, Leave, WordsOf, Valid, SameVco, HoldsEntry, EntryOf, UsesTdd;
    ValidIsPositive(c, st.Of(tx).lo);
    if NeedsFixup(c, st) {
      var b := !tx;
      var e := Fixup(c, st, tx, WordsOf(st.Of(tx).lo, parent), parent);
      if st.tx.lo == st.rx.lo {
        TuneTables(c, st, b, parent);
        KeptSide(c, st, e, tx, parent);
      } else {
        var left := Leave(st, b);
        LeaveLaw(c, st, b, Refs(parent, parent));
        LeaveVco(st, b, tx);
        KeptSide(c, st, left, tx, parent);
        TuneTables(c, left, b, parent);
        KeptSide(c, left, e, tx, parent);
      }
    }
  }

  predicate Tabled(c: Config, st: Lo, heldFor: Refs) {
    SideTabled(c, st, false, heldFor.rx) && SideTabled(c, st, true, heldFor.tx)
  }

  lemma TabledSide(c: Config, st: Lo, heldFor: Refs, b: bool)
    ensures Tabled(c, st, heldFor) <==> SideTabled(c, st, b, heldFor.Of(b)) && SideTabled(c, st, !b, heldFor.Of(!b))
  {
    hide SideTabled;
  }

  /** Tuning one LO leaves each side on the table entry of its own LO and kind, for
      the reference its words are for. */
  lemma SetLoTables(c: Config, st: Lo, tx: bool, rate: u32, heldFor: Refs, refs: Refs)
    requires Tuned(c, st, heldFor) && Tabled(c, st, heldFor)
    ensures Tabled(c, SetLo(c, st, tx, rate, refs.Of(tx)), NextHeldFor(c, st, tx, rate, heldFor, refs))
  {
    hide Leave, Fixup, SkipCal, FirstTurn, SideTuned, WordsOf, Valid, SideTabled, SameVco, Tabled;
    var parent, left := refs.Of(tx), Leave(st, tx);
    LeaveLaw(c, st, tx, heldFor);
    LeaveVco(st, tx, tx);
    LeaveVco(st, tx, !tx);
    TabledSide(c, st, heldFor, tx);
    KeptSide(c, st, left, tx, heldFor.Of(tx));
    KeptSide(c, st, left, !tx, heldFor.Of(!tx));
    var e, next := SetLo(c, st, tx, rate, parent), NextHeldFor(c, st, tx, rate, heldFor, refs);
    TabledSide(c, e, next, tx);
    if Valid(c, rate) {
      ValidIsPositive(c, rate);
      var first := FirstTurn(c, left, tx, rate, parent);
      FirstTurnTables(c, left, tx, rate, parent, heldFor.Of(!tx));
      FirstTurnLaw(c, left, tx, rate, heldFor, parent);
      OtherHasLo(c, left, heldFor, !tx);
      FixupTables(c, first, tx, parent, heldFor.Of(!tx));
      var fixed := Fixup(c, first, tx, WordsOf(rate, parent), parent);
      SkipLaw(c, fixed, tx, false, heldFor);
      SkipCalVco(c, fixed, tx, false, tx);
      SkipCalVco(c, fixed, tx, false, !tx);
      KeptSide(c, fixed, e, tx, parent);
      KeptSide(c, fixed, e, !tx, if NeedsFixup(c, first) then parent else heldFor.Of(!tx));
    }
  }

  lemma OtherHasLo(c: Config, st: Lo, heldFor: Refs, b: bool)
    requires Tuned(c, st, heldFor)
    ensures st.Of(b).tdd ==> st.Of(b).lo != 0
  {
    hide WordsOf, Valid, HoldsWords;
  }

  lemma StepTables(c: Config, st: Lo, op: Op, heldFor: Refs, refs: Refs)
    requires op.Ok() && Invariant(c, st, heldFor) && Tabled(c, st, heldFor)
    ensures Tabled(c, Step(c, st, op, refs), StepHeldFor(c, st, op, heldFor, refs))
  {
    match op
    case TuneOp(tx, rate) =>
      hide SetLo, Tabled, NextHeldFor;
      SetLoTables(c, st, tx, rate, heldFor, refs);
    case LoadOp(tx, p, v) => LoadTables(c, st, tx, p, v, heldFor);
    case StoreOp(tx, p) => LoadTables(c, st, tx, p, Snapshot(st.dev, tx), heldFor);
    case RecallOp(tx, p) => RecallTables(c, st, tx, p, heldFor);
  }

  lemma LoadTables(c: Config, st: Lo, tx: bool, profile: nat, values: seq<bv8>, heldFor: Refs)
    requires profile < 8 && |values| == FastLock.WORDS && Tabled(c, st, heldFor)
    ensures Tabled(c, Load(st, tx, profile, values), heldFor)
  {
    var e := Load(st, tx, profile, values);
    forall b ensures SameVco(st.dev, e.dev, b) {
      forall a | 0 <= a < SIZE && IsVco(a, b) ensures e.dev.regs[a] == st.dev.regs[a] {
        LoadFrame(st, tx, profile, values, a);
        hide Load;
      }
      OtherVco(st.dev, e.dev, b);
    }
    assert e.rx.lo == st.rx.lo && e.tx.lo == st.tx.lo && e.rx.tdd == st.rx.tdd && e.tx.tdd == st.tx.tdd;
    hide Load, SideTabled;
    KeptSide(c, st, e, false, heldFor.rx);
    KeptSide(c, st, e, true, heldFor.tx);
  }

  lemma RecallTables(c: Config, st: Lo, tx: bool, profile: nat, heldFor: Refs)
    requires profile < 8 && Tabled(c, st, heldFor)
    ensures var r := Recall(c, st, tx, profile); r.Ok? ==> Tabled(c, r.value, heldFor)
  {
    hide Activate, NextAlc, CurrentAlc, AlcRewrite, SideTabled, SameVco;
    var r := Recall(c, st, tx, profile);
    if r.Ok? {
      var e := r.value;
      forall b ensures SameVco(st.dev, e.dev, b) {
        forall a | 0 <= a < SIZE && IsVco(a, b) ensures e.dev.regs[a] == st.dev.regs[a] {
          var alc := NextAlc(CurrentAlc(st, tx), st.Of(tx).entries[profile]);
          RewriteFrame(st, tx, profile, alc, a);
          ActivateFrame(c, AlcRewrite(st, tx, profile, alc), st, tx, profile, a);
        }
        OtherVco(st.dev, e.dev, b);
      }
      KeptSide(c, st, e, false, heldFor.rx);
      KeptSide(c, st, e, true, heldFor.tx);
    }
  }

  lemma {:induction false} RunsKeepTables(c: Config, st: Lo, ops: seq<Op>, refs: Refs)
    requires Fresh(st) && forall op :: op in ops ==> op.Ok()
    ensures Tabled(c, Run(c, st, ops, refs), HeldFor(c, st, ops, refs))
    decreases |ops|
  {
    hide Invariant, Step, StepHeldFor;
    if ops != [] {
      var n := |ops| - 1;
      assert ops[n] in ops && ops[n].Ok();
      RunsKeepTables(c, st, ops[..n], refs);
      RunsKeepInvariant(c, st, ops[..n], refs);
      hide Tabled;
      StepTables(c, Run(c, st, ops[..n], refs), ops[n], HeldFor(c, st, ops[..n], refs), refs);
    }
  }

  /** After every run each synthesiser with an LO is set up from the table of the
      kind its flag says, in the range nearest to the reference its words are for, by
      the first row that is not above its VCO frequency. */
  lemma TableInForce(c: Config, st: Lo, ops: seq<Op>, refs: Refs, b: bool, vco: nat, range: nat, row: nat)
    requires Fresh(st) && forall op :: op in ops ==> op.Ok()
    requires var s := Run(c, st, ops, refs).Of(b); s.lo != 0 && IsVcoOf(vco, Rfpll.FromClk(s.lo))
    requires NearestRange(range, HeldFor(c, st, ops, refs).Of(b)) && FirstRow(row, vco)
    ensures var e := Run(c, st, ops, refs);
            && Synth.VcoHolds(e.dev.regs, Offs(b), c.tables(e.Of(b).tdd, range, row))
            && Synth.FilterHolds(e.dev.regs, Offs(b), c.tables(e.Of(b).tdd, range, row))
  {
    var e, parent := Run(c, st, ops, refs), HeldFor(c, st, ops, refs).Of(b);
    RunsKeepTables(c, st, ops, refs);
    TabledSide(c, e, HeldFor(c, st, ops, refs), b);
    hide Run, HeldFor, NearestRange, FirstRow, IsVcoOf, Tabled, Synth.VcoHolds, Synth.FilterHolds, Synth.LutRow;
    hide Synth.TableIndex, WordsOf, Valid;
    VcoIs(c, e.Of(b).lo, parent, vco);
    RangeIs(range, parent);
    RowIs(row, vco);
  }

  /** The same of one call, from any state that is in order: the tuned side for its
      own reference, and the other one too if it had to be fixed up. */
  lemma TunedTable(c: Config, st: Lo, tx: bool, rate: u32, heldFor: Refs, refs: Refs, b: bool,
                   vco: nat, range: nat, row: nat)
    requires Tuned(c, st, heldFor) && Tabled(c, st, heldFor) && Valid(c, rate)
    requires b == tx || FixupDue(c, st, tx, rate)
    requires IsVcoOf(vco, Rfpll.FromClk(if b == tx then rate else st.Of(b).lo))
    requires NearestRange(range, refs.Of(tx)) && FirstRow(row, vco)
    ensures var e := SetLo(c, st, tx, rate, refs.Of(tx));
            && Synth.VcoHolds(e.dev.regs, Offs(b), c.tables(e.Of(b).tdd, range, row))
            && Synth.FilterHolds(e.dev.regs, Offs(b), c.tables(e.Of(b).tdd, range, row))
  {
    var e, next := SetLo(c, st, tx, rate, refs.Of(tx)), NextHeldFor(c, st, tx, rate, heldFor, refs);
    SetLoTables(c, st, tx, rate, heldFor, refs);
    SetLoKeepsTuned(c, st, tx, rate, heldFor, refs);
    TabledSide(c, e, next, b);
    OtherHasLo(c, st, heldFor, b);
    hide SetLo, NearestRange, FirstRow, IsVcoOf, Tabled, Synth.VcoHolds, Synth.FilterHolds, Synth.LutRow;
    hide Synth.TableIndex, WordsOf, Valid, Tuned;
    ValidIsPositive(c, rate);
    assert e.Of(b).lo != 0 && next.Of(b) == refs.Of(tx);
    VcoIs(c, e.Of(b).lo, refs.Of(tx), vco);
    RangeIs(range, refs.Of(tx));
    RowIs(row, vco);
  }

  /** There always is such an entry. */
  lemma TableExists(c: Config, lo: u32, parent: Ref) returns (vco: nat, range: nat, row: nat)
    requires Valid(c, lo)
    ensures IsVcoOf(vco, Rfpll.FromClk(lo)) && NearestRange(range, parent) && FirstRow(row, vco)
  {
    vco, range := WordsOf(lo, parent).vco, Synth.TableIndex(parent);
    row := Synth.LutRow(vco);
    Synth.LookupInsideTable(Rfpll.FromClk(lo), parent, c.ad9363a);
    VcoIs(c, lo, parent, vco);
    RangeIs(range, parent);
    RowIs(row, vco);
  }

  // ---- the cached divider ----

  /** The divider the driver has cached is the one of the LO. */
  predicate SideCached(st: Lo, b: bool) {
    st.Of(b).lo != 0 ==> st.Of(b).cachedDiv == Rfpll.Doublings(Rfpll.FromClk(st.Of(b).lo)) - 1
  }

  predicate SameDividers(st: Lo, e: Lo) {
    forall b :: e.Of(b).lo == st.Of(b).lo && e.Of(b).cachedDiv == st.Of(b).cachedDiv
  }

  lemma QuietSteps(c: Config, st: Lo, tx: bool, enable: bool, w: Rfpll.Words, parent: nat)
    ensures SameDividers(st, Leave(st, tx)) && SameDividers(st, SkipCal(c, st, tx, enable))
    ensures SameDividers(st, Tune(c, st, tx, w, parent))
  {
    hide Synth.Program, Script;
  }

  lemma FixupDividers(c: Config, st: Lo, tx: bool, w: Rfpll.Words, parent: Ref)
    ensures SameDividers(st, Fixup(c, st, tx, w, parent))
  {
    hide Leave, Tune, WordsOf, Valid;
    if NeedsFixup(c, st) {
      var other := st.Of(!tx).lo;
      if Valid(c, other) {
        ValidIsPositive(c, other);
      }
      var w2 := if st.tx.lo == st.rx.lo || !Valid(c, other) then w else WordsOf(other, parent);
      QuietSteps(c, st, !tx, true, w2, parent);
      QuietSteps(c, Leave(st, !tx), !tx, true, w2, parent);
    }
  }

  lemma SetLoCached(c: Config, st: Lo, tx: bool, rate: u32, parent: Ref, b: bool)
    requires SideCached(st, b)
    ensures SideCached(SetLo(c, st, tx, rate, parent), b)
  {
    hide Leave, Tune, SkipCal, Fixup, Rfpll.Doublings, Valid, SameDividers;
    var left := Leave(st, tx);
    if Valid(c, rate) {
      ValidIsPositive(c, rate);
      var w := WordsOf(rate, parent);
      QuietSteps(c, st, tx, true, w, parent);
      var st2 := left.With(tx, left.Of(tx).(lo := rate, cachedDiv := w.vcoDiv));
      DividersKept(st, left, b);
      QuietSteps(c, st2, tx, true, w, parent);
      DividersKept(st2, SkipCal(c, st2, tx, true), b);
      QuietSteps(c, SkipCal(c, st2, tx, true), tx, true, w, parent);
      var first := FirstTurn(c, left, tx, rate, parent);
      DividersKept(SkipCal(c, st2, tx, true), first, b);
      FixupDividers(c, first, tx, w, parent);
      var fixed := Fixup(c, first, tx, w, parent);
      DividersKept(first, fixed, b);
      QuietSteps(c, fixed, tx, false, w, parent);
      DividersKept(fixed, SkipCal(c, fixed, tx, false), b);
    } else {
      QuietSteps(c, st, tx, true, Rfpll.Words(0, 0, 0, 0), parent);
      DividersKept(st, left, b);
    }
  }

  lemma DividersKept(st: Lo, e: Lo, b: bool)
    requires SameDividers(st, e)
    ensures e.Of(b).lo == st.Of(b).lo && e.Of(b).cachedDiv == st.Of(b).cachedDiv
  {
  }

  lemma StepCached(c: Config, st: Lo, op: Op, refs: Refs, b: bool)
    requires op.Ok() && SideCached(st, b)
    ensures SideCached(Step(c, st, op, refs), b)
  {
    hide SetLo, Rfpll.Doublings, Activate, AlcRewrite, NextAlc, CurrentAlc, Snapshot;
    if op.TuneOp? {
      SetLoCached(c, st, op.tx, op.rate, refs.Of(op.tx), b);
    }
  }

  /** After every run the cached divider of a side with an LO is the one in its register. */
  lemma {:induction false} RunsKeepCached(c: Config, st: Lo, ops: seq<Op>, refs: Refs, b: bool)
    requires Fresh(st) && forall op :: op in ops ==> op.Ok()
    ensures var e := Run(c, st, ops, refs);
            SideCached(e, b) && (e.Of(b).lo != 0 ==> e.Of(b).cachedDiv == Synth.RegDivider(e.dev, b))
    decreases |ops|
  {
    hide Step, SideCached;
    if ops != [] {
      var n := |ops| - 1;
      assert ops[n] in ops && ops[n].Ok();
      RunsKeepCached(c, st, ops[..n], refs, b);
      StepCached(c, Run(c, st, ops[..n], refs), ops[n], refs, b);
    } else {
      FreshIsCached(st, b);
    }
    RunsKeepInvariant(c, st, ops, refs);
    CachedIsRegister(c, Run(c, st, ops, refs), HeldFor(c, st, ops, refs), b);
  }

  lemma FreshIsCached(st: Lo, b: bool)
    requires Fresh(st)
    ensures SideCached(st, b)
  {
  }

  lemma CachedIsRegister(c: Config, st: Lo, heldFor: Refs, b: bool)
    requires Tuned(c, st, heldFor) && SideCached(st, b)
    ensures st.Of(b).lo != 0 ==> st.Of(b).cachedDiv == Synth.RegDivider(st.dev, b)
  {
    hide Synth.RegDivider, Synth.RegInteger, Synth.RegFract, Rfpll.Doublings, Valid;
  }

  // ---- what a stored profile says of the VCO and the loop filter ----

  function High(b: bv8): bv8 { b >> 4 }

  function Low(b: bv8): bv8 { b & 0x0F }

  lemma PairParts(x: bv8, y: bv8)
    requires x <= 0x0F && y <= 0x0F
    ensures High((x << 4) | y) == x && Low((x << 4) | y) == y
  {
  }

  /** Reading a field of at most four bits. */
  lemma SmallField(b: bv8)
    ensures Extracted(b, 0x0F, 0) <= 0x0F && Extracted(b, 0xF0, 4) <= 0x0F && Extracted(b, 0x07, 0) <= 0x0F
    ensures Extracted(b, 0x70, 4) <= 0x0F && Extracted(b, 0x78, 3) <= 0x0F
  {
  }

  lemma DividerIsSmall(r: Regs, tx: bool)
    ensures ReadF(r, DividerField(tx)) <= 0x0F
  {
  }

  /** A profile stored from a side on a table entry holds that entry: bias and VCO
      varactor, the charge pump, each loop filter value, and offset and reference of
      the varactor; those the device takes twice are there twice. */
  lemma StoredEntry(d: Device, tx: bool, t: Synth.Tuning)
    requires HoldsEntry(d, tx, t)
    ensures var v := Snapshot(d, tx);
            && High(v[5]) == t.biasRef & 0x07 && Low(v[5]) == t.varactor & 0x0F
            && v[7] == t.cpCurrent & 0x3F
            && High(v[8]) == Low(v[8]) == t.r3 & 0x0F && High(v[9]) == Low(v[9]) == t.c3 & 0x0F
            && High(v[10]) == t.c1 & 0x0F && Low(v[10]) == t.c2 & 0x0F
            && High(v[11]) == Low(v[11]) == t.r1 & 0x0F && High(v[12]) == 7
            && High(v[13]) == t.calOffset & 0x0F && Low(v[13]) == t.varactorRef & 0x0F
    ensures Snapshot(d, tx)[6] == ((t.biasTcf & 0x03) << 3) | (t.cpCurrent & 0x3F)
  {
    var r, o, w := d.regs, Offs(tx), ReadF(d.regs, DividerField(tx));
    SnapshotIs(d, tx);
    DividerIsSmall(r, tx);
    VcoWords(r, o, w, t);
    FilterWords(r, o, w, t);
    BiasWord(r, o, w, t);
    hide Snapshot, Extracted, ReadF, TuningWords;
  }

  /** Its first five words are the frequency registers, in the order of their
      addresses, and the lower half of word 12 is the divider. */
  lemma StoredWords(d: Device, tx: bool)
    ensures var v := Snapshot(d, tx);
            && (forall k :: 0 <= k < 5 ==> v[k] == d.regs[0x231 + Offs(tx) + k])
            && FromByte(Low(v[12])) == Synth.RegDivider(d, tx)
  {
    SnapshotIs(d, tx);
    DividerIsSmall(d.regs, tx);
    PairParts(Extracted(d.regs[VCO_VARACTOR_CTRL_0 + Offs(tx)], 0x70, 4), ReadF(d.regs, DividerField(tx)));
    hide High, Low, Extracted, ReadF, FromByte;
  }

  lemma SnapshotIs(d: Device, tx: bool)
    ensures forall k :: 0 <= k < 11 ==>
              Snapshot(d, tx)[5 + k] == TuningWords(d.regs, Offs(tx), ReadF(d.regs, DividerField(tx)))[k]
  {
    hide Extracted, ReadF, TuningWords, FrequencyWords;
  }

  lemma VcoWords(r: Regs, o: nat, divider: bv8, t: Synth.Tuning)
    requires o <= TX_OFFSET && Synth.VcoHolds(r, o, t) && divider <= 0x0F
    ensures var v := TuningWords(r, o, divider);
            && High(v[0]) == t.biasRef & 0x07 && Low(v[0]) == t.varactor & 0x0F && High(v[7]) == 7
            && High(v[8]) == t.calOffset & 0x0F && Low(v[8]) == t.varactorRef & 0x0F
  {
    hide Extracted, High, Low;
    SmallField(r[VCO_BIAS_1 + o]);
    SmallField(r[ALC_VARACTOR + o]);
    SmallField(r[VCO_VARACTOR_CTRL_0 + o]);
    SmallField(r[VCO_VARACTOR_CTRL_1 + o]);
    SmallField(r[FORCE_VCO_TUNE_1 + o]);
    PairParts(Extracted(r[VCO_BIAS_1 + o], 0x07, 0), Extracted(r[ALC_VARACTOR + o], 0x0F, 0));
    PairParts(Extracted(r[VCO_VARACTOR_CTRL_0 + o], 0x70, 4), divider);
    PairParts(Extracted(r[FORCE_VCO_TUNE_1 + o], 0x78, 3), Extracted(r[VCO_VARACTOR_CTRL_1 + o], 0x0F, 0));
  }

  lemma FilterWords(r: Regs, o: nat, divider: bv8, t: Synth.Tuning)
    requires o <= TX_OFFSET && Synth.FilterHolds(r, o, t)
    ensures var v := TuningWords(r, o, divider);
            && v[2] == t.cpCurrent & 0x3F
            && High(v[3]) == Low(v[3]) == t.r3 & 0x0F && High(v[4]) == Low(v[4]) == t.c3 & 0x0F
            && High(v[5]) == t.c1 & 0x0F && Low(v[5]) == t.c2 & 0x0F
            && High(v[6]) == Low(v[6]) == t.r1 & 0x0F
  {
    hide Extracted, High, Low;
    SmallField(r[LOOP_FILTER_1 + o]);
    SmallField(r[LOOP_FILTER_2 + o]);
    SmallField(r[LOOP_FILTER_3 + o]);
    var r3, c3 := Extracted(r[LOOP_FILTER_3 + o], 0x0F, 0), Extracted(r[LOOP_FILTER_2 + o], 0x0F, 0);
    var r1 := Extracted(r[LOOP_FILTER_2 + o], 0xF0, 4);
    PairParts(r3, r3);
    PairParts(c3, c3);
    PairParts(r1, r1);
    PairParts(Extracted(r[LOOP_FILTER_1 + o], 0x0F, 0), Extracted(r[LOOP_FILTER_1 + o], 0xF0, 4));
  }

  lemma BiasWord(r: Regs, o: nat, divider: bv8, t: Synth.Tuning)
    requires o <= TX_OFFSET && Synth.VcoHolds(r, o, t) && Synth.FilterHolds(r, o, t)
    ensures TuningWords(r, o, divider)[1] == ((t.biasTcf & 0x03) << 3) | (t.cpCurrent & 0x3F)
  {
    hide Extracted;
  }

  /** Its last two words are the VCO tune word, and the ALC word above the ninth bit of
      the tune word. */
  lemma StoredCalibration(d: Device, tx: bool)
    ensures var v, o := Snapshot(d, tx), Offs(tx);
            && v[14] == d.regs[FORCE_VCO_TUNE_0 + o]
            && v[15] >> 1 == d.regs[FORCE_ALC + o] & 0x7F && v[15] & 0x01 == d.regs[FORCE_VCO_TUNE_1 + o] & 0x01
  {
    SnapshotIs(d, tx);
    AlcParts(d.regs[FORCE_ALC + Offs(tx)], d.regs[FORCE_VCO_TUNE_1 + Offs(tx)]);
    hide Snapshot, Extracted, ReadF;
  }

  lemma AlcParts(x: bv8, y: bv8)
    ensures var w := (Extracted(x, 0x7F, 0) << 1) | Extracted(y, 0x01, 0);
            w >> 1 == x & 0x7F && w & 0x01 == y & 0x01
  {
  }

  /** The initial charge pump current of a stored profile is meant to be the steady
      one. The bias coefficient is put over bits 3 and 4 of it, so it is exactly when
      those bits of the current contain it. */
  lemma InitialCurrent(d: Device, tx: bool, t: Synth.Tuning)
    requires HoldsEntry(d, tx, t)
    ensures var v := Snapshot(d, tx);
            v[6] & 0x3F == v[7] <==> ((t.biasTcf & 0x03) << 3) & t.cpCurrent == (t.biasTcf & 0x03) << 3
  {
    StoredEntry(d, tx, t);
    CurrentBits(t.biasTcf & 0x03, t.cpCurrent);
    hide Snapshot, HoldsEntry;
  }

  lemma CurrentBits(tcf: bv8, current: bv8)
    requires tcf <= 3
    ensures ((tcf << 3) | (current & 0x3F)) & 0x3F == current & 0x3F <==> (tcf << 3) & current == tcf << 3
  {
  }
}

/** Which profile the device itself runs from, and with which ALC word. */
module FastLockMode {
  import opened CTypes
  import opened Bytes
  import opened Registers
  import opened Device
  import opened LocalOscillator
  import opened LoFrames
  import FastLock
  import Rfpll
  import Synth

  // ---- what the setup register means to the device ----

  function Setup(d: Device, tx: bool): bv8 { d.regs[FAST_SETUP + Offs(tx)] }

  /** Bit 0 turns fast lock on, bits 7 to 5 select the profile. */
  predicate FastLockOn(d: Device, tx: bool) { Setup(d, tx) & 0x01 == 1 }

  function Selected(d: Device, tx: bool): (p: nat)
    ensures p < 8
  {
    TopThree(Setup(d, tx))
  }

  function TopThree(b: bv8): (p: nat)
    ensures p < 8
  {
    (b >> 5) as nat
  }

  /** The carrier the synthesiser runs at. */
  function Carrier(d: Device, tx: bool, parent: nat): nat {
    if FastLockOn(d, tx) then Synth.ProfileFreq(d, tx, Selected(d, tx), parent) else Synth.RegFreq(d, tx, parent)
  }

  /** The ALC word in force: the last word of the selected profile, or seven bits of
      a register. */
  function ActiveAlc(d: Device, tx: bool): bv8 {
    if FastLockOn(d, tx) then FastLock.WordAt(d, tx, Selected(d, tx), 15)
    else (d.regs[FORCE_ALC + Offs(tx)] & 0x7F) << 1
  }

  function Pinctrl(c: Config, tx: bool): bool { if tx then c.txPinctrl else c.rxPinctrl }

  /** Fast lock is on with a profile, by pin control if that is set; nothing else is. */
  predicate RunsFrom(b: bv8, profile: nat, pin: bool) {
    b & 0x01 == 1 && TopThree(b) == profile && (b & 0x02 != 0) == pin && b & 0x1C == 0
  }

  /** The driver's profile is the one the device runs from, and it has been loaded. */
  predicate SideMode(c: Config, st: Lo, tx: bool) {
    var s := st.Of(tx);
    if s.profile == 0 then Setup(st.dev, tx) == 0
    else RunsFrom(Setup(st.dev, tx), s.profile - 1, Pinctrl(c, tx)) && s.entries[s.profile - 1].initialised
  }

  predicate InMode(c: Config, st: Lo) { SideMode(c, st, false) && SideMode(c, st, true) }

  lemma BothSides(c: Config, st: Lo, b: bool)
    ensures InMode(c, st) <==> SideMode(c, st, b) && SideMode(c, st, !b)
  {
    hide SideMode;
  }

  // ---- the byte written ----

  lemma SetupByte(profile: nat, pin: bool)
    requires profile < 8
    ensures RunsFrom(ToByte((profile % 8) * 32 + (if pin then 2 else 0) + 1), profile, pin)
  {
    hide *;
    var x := (profile % 8) * 32 + (if pin then 2 else 0) + 1;
    assert x % 256 == x == 32 * profile + (if pin then 2 else 0) + 1;
    ByteRoundTrip(x);
    SetupBits(ToByte(x), profile, pin);
  }

  lemma SetupBits(b: bv8, profile: nat, pin: bool)
    requires profile < 8 && FromByte(b) == 32 * profile + (if pin then 2 else 0) + 1
    ensures RunsFrom(b, profile, pin)
  {
    TopBits(b);
    hide TopThree;
    LowFive(b, if pin then 3 else 1);
  }

  lemma TopBits(b: bv8)
    ensures TopThree(b) == FromByte(b) / 32
  {
  }

  lemma LowFive(b: bv8, low: nat)
    requires FromByte(b) % 32 == low && (low == 1 || low == 3)
    ensures b & 0x01 == 1 && (b & 0x02 != 0) == (low == 3) && b & 0x1C == 0
  {
    LowBits(b);
  }

  lemma LowBits(b: bv8)
    ensures (b & 0x1F) as int == b as int % 32
    ensures b & 0x1F == 1 ==> b & 0x01 == 1 && b & 0x02 == 0 && b & 0x1C == 0
    ensures b & 0x1F == 3 ==> b & 0x01 == 1 && b & 0x02 != 0 && b & 0x1C == 0
  {
  }

  // ---- leaving and recalling ----

  /** After fast lock has been left the setup register is zero. */
  lemma LeaveClears(c: Config, st: Lo, tx: bool)
    requires InMode(c, st)
    ensures var e := Leave(st, tx);
            InMode(c, e) && Setup(e.dev, tx) == 0 && Setup(e.dev, !tx) == Setup(st.dev, !tx)
  {
    var e := Leave(st, tx);
    LeaveFrame(st, tx, FAST_SETUP + Offs(!tx));
    if st.Of(tx).profile != 0 {
      ScriptAt(st.dev, LeaveScript(tx), 0);
      FullMask(st.dev.regs[FAST_SETUP + Offs(tx)], 0);
    }
    hide Script, LeaveScript;
  }

  lemma FullMask(b: bv8, v: bv8)
    ensures Merged(b, 0xFF, 0, v) == v
  {
  }

  lemma ActivateSets(c: Config, d: Device, st: Lo, tx: bool, profile: nat)
    requires profile < 8
    ensures var e := Activate(c, d, st, tx, profile);
            RunsFrom(Setup(e, tx), profile, Pinctrl(c, tx)) && Setup(e, !tx) == Setup(d, !tx)
  {
    hide ToByte, Enter, RunsFrom;
    var pin := if Pinctrl(c, tx) then 2 else 0;
    var ps := [Plain(FAST_SETUP + Offs(tx), ToByte((profile % 8) * 32 + pin + 1))];
    var d1 := Enter(c, d, st, tx, profile);
    ActivateFrame(c, d, st, tx, profile, FAST_SETUP + Offs(!tx));
    ScriptAt(d1, ps, 0);
    FullMask(d1.regs[FAST_SETUP + Offs(tx)], ps[0].val);
    SetupByte(profile, Pinctrl(c, tx));
  }

  /** After a recall the setup register selects the recalled profile, with fast lock
      on and pin control as configured. */
  lemma RecallSelects(c: Config, st: Lo, tx: bool, profile: nat)
    requires profile < 8 && st.Of(tx).entries[profile].initialised
    ensures Recall(c, st, tx, profile).Ok?
    ensures var e := Recall(c, st, tx, profile).value;
            RunsFrom(Setup(e.dev, tx), profile, Pinctrl(c, tx)) && Setup(e.dev, !tx) == Setup(st.dev, !tx)
  {
    hide Activate, NextAlc, CurrentAlc, AlcRewrite, RunsFrom;
    var alc := NextAlc(CurrentAlc(st, tx), st.Of(tx).entries[profile]);
    RewriteFrame(st, tx, profile, alc, FAST_SETUP + Offs(!tx));
    ActivateSets(c, AlcRewrite(st, tx, profile, alc), st, tx, profile);
  }

  /** What the driver reports is the carrier the device runs at. */
  lemma ReportsCarrier(c: Config, st: Lo, tx: bool, parent: nat)
    requires SideMode(c, st, tx)
    ensures Reported(st, tx, parent) == Rfpll.ToClk(Carrier(st.dev, tx, parent))
  {
    hide Synth.ProfileFreq, Synth.RegFreq, Rfpll.ToClk, TopThree;
  }

  /** Storing the tuned LO and recalling it makes the device run at the carrier that
      was in the synthesiser registers. */
  lemma StoredCarrierRuns(c: Config, st: Lo, tx: bool, profile: nat, parent: nat)
    requires profile < 8
    ensures var r := Recall(c, Load(st, tx, profile, Snapshot(st.dev, tx)), tx, profile);
            && r.Ok? && FastLockOn(r.value.dev, tx) && Selected(r.value.dev, tx) == profile
            && Carrier(r.value.dev, tx, parent) == Synth.RegFreq(st.dev, tx, parent)
  {
    var stored := Load(st, tx, profile, Snapshot(st.dev, tx));
    assert EntryOk(stored.dev, tx, profile, stored.Of(tx).entries[profile]);
    RecallLaw(c, stored, tx, profile);
    RecallSelects(c, stored, tx, profile);
    StoredFrequency(st, stored, Recall(c, stored, tx, profile).value, tx, profile, parent,
                    NextAlc(CurrentAlc(stored, tx), stored.Of(tx).entries[profile]));
    hide Recall, Load, Snapshot, Synth.ProfileFreq, Synth.RegFreq;
  }

  // ---- what goes with the mode ----

  predicate VcoCalOn(d: Device, tx: bool) { d.regs[PFD_CONFIG + Offs(tx)] & 0x01 == 0 }

  /** The state machine takes the synthesiser for ready. */
  predicate SynthIsReady(d: Device, tx: bool) { d.regs[ENSM_CONFIG_2] & (if tx then 0x01 else 0x02) != 0 }

  lemma BitSet(b: bv8)
    ensures Merged(b, 0x01, 0, 1) & 0x01 == 1 && Merged(b, 0x01, 0, 0) & 0x01 == 0
    ensures Merged(b, 0x02, 1, 1) & 0x02 != 0 && Merged(b, 0x02, 1, 0) & 0x02 == 0
    ensures Merged(b, 0x02, 1, 1) & 0x01 == b & 0x01 && Merged(b, 0x02, 1, 0) & 0x01 == b & 0x01
    ensures Merged(b, 0x01, 0, 1) & 0x02 == b & 0x02 && Merged(b, 0x01, 0, 0) & 0x02 == b & 0x02
  {
  }

  /** Leaving fast lock calibrates the VCO again and takes the ready mark away; the
      mark of the other side stays. */
  lemma LeaveRestores(st: Lo, tx: bool)
    requires st.Of(tx).profile != 0
    ensures var d := Leave(st, tx).dev;
            VcoCalOn(d, tx) && !SynthIsReady(d, tx) && SynthIsReady(d, !tx) == SynthIsReady(st.dev, !tx)
  {
    ScriptAt(st.dev, LeaveScript(tx), 5);
    ScriptAt(st.dev, LeaveScript(tx), 6);
    BitSet(st.dev.regs[PFD_CONFIG + Offs(tx)]);
    BitSet(st.dev.regs[ENSM_CONFIG_2]);
    hide Script, Merged;
  }

  /** And neither ALC word nor VCO tune word is forced afterwards. */
  lemma LeaveReleases(st: Lo, tx: bool)
    requires st.Of(tx).profile != 0
    ensures var r, o := Leave(st, tx).dev.regs, Offs(tx);
            r[FORCE_ALC + o] & 0x80 == 0 && r[FORCE_VCO_TUNE_1 + o] & 0x01 == 0
  {
    hide Merged;
    var ps := LeaveScript(tx);
    var d1 := WriteField(st.dev, ps[0].f, ps[0].val);
    var d2 := WriteField(d1, ps[1].f, ps[1].val);
    var d3 := WriteField(d2, ps[2].f, ps[2].val);
    assert ps[1..][1..] == ps[2..] && ps[2..][1..] == ps[3..];
    assert Script(st.dev, ps) == Script(d1, ps[1..]) == Script(d2, ps[2..]) == Script(d3, ps[3..]);
    ScriptAt(d3, ps[3..], 0);
    ScriptAt(d3, ps[3..], 1);
    BitsCleared(d3.regs[FORCE_ALC + Offs(tx)]);
    BitsCleared(d3.regs[FORCE_VCO_TUNE_1 + Offs(tx)]);
  }

  lemma BitsCleared(b: bv8)
    ensures Merged(b, 0x80, 7, 0) & 0x80 == 0 && Merged(b, 0x01, 0, 0) & 0x01 == 0
  {
  }

  /** Turning fast lock on marks the synthesiser as ready, stops VCO calibration and
      sets the delay, in steps of 250 ns. */
  lemma EnterPrepares(c: Config, d: Device, st: Lo, tx: bool, profile: nat)
    requires st.Of(tx).profile == 0
    ensures var e := Enter(c, d, st, tx, profile);
            && !VcoCalOn(e, tx) && SynthIsReady(e, tx) && SynthIsReady(e, !tx) == SynthIsReady(d, !tx)
            && FromByte(e.regs[FAST_INIT_DELAY + Offs(tx)]) == (if tx then c.txDelayNs else c.rxDelayNs) / 250 % 256
  {
    var delay := (if tx then c.txDelayNs else c.rxDelayNs) / 250;
    ByteRoundTrip(delay);
    hide ToByte, FromByte;
    var ps := [Plain(FAST_INIT_DELAY + Offs(tx), ToByte(delay)),
               Plain(FAST_SETUP + Offs(tx), ToByte((profile % 8) * 32 + 1))];
    var d1 := Script(d, ps);
    var d2 := Write(d1, FAST_CTRL + Offs(tx), 0);
    var qs := [SynthReady(tx, 1), VcoCal(tx, false)];
    ScriptAt(d, ps, 0);
    FullMask(d.regs[FAST_INIT_DELAY + Offs(tx)], ToByte(delay));
    ScriptElsewhere(d, ps, ENSM_CONFIG_2);
    ScriptElsewhere(d2, qs, FAST_INIT_DELAY + Offs(tx));
    ScriptAt(d2, qs, 0);
    ScriptAt(d2, qs, 1);
    BitSet(d2.regs[ENSM_CONFIG_2]);
    BitSet(d2.regs[PFD_CONFIG + Offs(tx)]);
    hide Script, Merged;
  }

  /** With calibration skipped in TDD mode, tuning turns it on for the time it takes. */
  lemma SkipCalSets(c: Config, st: Lo, tx: bool, enable: bool)
    requires c.tddSkipVcoCal
    ensures VcoCalOn(SkipCal(c, st, tx, enable).dev, tx) == enable
  {
    ScriptAt(st.dev, [VcoCal(tx, enable)], 0);
    BitSet(st.dev.regs[PFD_CONFIG + Offs(tx)]);
    hide Script, Merged;
  }

  lemma TunedCalibration(c: Config, st: Lo, tx: bool, rate: u32, parent: Ref)
    requires c.tddSkipVcoCal && Valid(c, rate)
    ensures !VcoCalOn(SetLo(c, st, tx, rate, parent).dev, tx)
  {
    hide Leave, Fixup, FirstTurn, SkipCal, WordsOf, Valid, VcoCalOn;
    ValidIsPositive(c, rate);
    var fixed := Fixup(c, FirstTurn(c, Leave(st, tx), tx, rate, parent), tx, WordsOf(rate, parent), parent);
    SkipCalSets(c, fixed, tx, false);
  }

  // ---- whole runs ----

  lemma KeptMode(c: Config, st: Lo, e: Lo, b: bool)
    requires SideMode(c, st, b) && Setup(e.dev, b) == Setup(st.dev, b) && e.Of(b).profile == st.Of(b).profile
    requires forall p :: 0 <= p < 8 && st.Of(b).entries[p].initialised ==> e.Of(b).entries[p].initialised
    ensures SideMode(c, e, b)
  {
    hide RunsFrom;
  }

  lemma TuneMode(c: Config, st: Lo, tx: bool, w: Rfpll.Words, parent: nat)
    requires InMode(c, st)
    ensures InMode(c, Tune(c, st, tx, w, parent))
  {
    var e := Tune(c, st, tx, w, parent);
    TuneFrame(c, st, tx, w, parent, FAST_SETUP);
    TuneFrame(c, st, tx, w, parent, FAST_SETUP + TX_OFFSET);
    assert e.rx.profile == st.rx.profile && e.tx.profile == st.tx.profile;
    assert e.rx.entries == st.rx.entries && e.tx.entries == st.tx.entries;
    hide Tune;
    KeptMode(c, st, e, false);
    KeptMode(c, st, e, true);
  }

  lemma SkipCalMode(c: Config, st: Lo, tx: bool, enable: bool)
    requires InMode(c, st)
    ensures InMode(c, SkipCal(c, st, tx, enable))
  {
    SkipCalFrame(c, st, tx, enable, FAST_SETUP);
    SkipCalFrame(c, st, tx, enable, FAST_SETUP + TX_OFFSET);
    var e := SkipCal(c, st, tx, enable);
    assert e.rx == st.rx && e.tx == st.tx;
    hide SkipCal;
    KeptMode(c, st, e, false);
    KeptMode(c, st, e, true);
  }

  lemma SetLoMode(c: Config, st: Lo, tx: bool, rate: u32, parent: Ref)
    requires InMode(c, st)
    ensures InMode(c, SetLo(c, st, tx, rate, parent)) && Setup(SetLo(c, st, tx, rate, parent).dev, tx) == 0
  {
    hide Leave, Tune, SkipCal, WordsOf, Valid, SideMode, NeedsFixup;
    var left := Leave(st, tx);
    LeaveClears(c, st, tx);
    if Valid(c, rate) {
      ValidIsPositive(c, rate);
      var w := WordsOf(rate, parent);
      var st2 := left.With(tx, left.Of(tx).(lo := rate, cachedDiv := w.vcoDiv));
      KeptMode(c, left, st2, tx);
      KeptMode(c, left, st2, !tx);
      BothSides(c, left, tx);
      BothSides(c, st2, tx);
      SkipCalMode(c, st2, tx, true);
      TuneMode(c, SkipCal(c, st2, tx, true), tx, w, parent);
      var first := FirstTurn(c, left, tx, rate, parent);
      FixupMode(c, first, tx, w, parent);
      var fixed := Fixup(c, first, tx, w, parent);
      SkipCalMode(c, fixed, tx, false);
      OffMeansZero(c, SetLo(c, st, tx, rate, parent), tx);
    }
    SetLoKeepsOff(c, st, tx, rate, parent);
    OffMeansZero(c, SetLo(c, st, tx, rate, parent), tx);
  }

  lemma OffMeansZero(c: Config, st: Lo, tx: bool)
    requires InMode(c, st)
    ensures st.Of(tx).profile == 0 ==> Setup(st.dev, tx) == 0
  {
  }

  lemma SetLoKeepsOff(c: Config, st: Lo, tx: bool, rate: u32, parent: Ref)
    ensures SetLo(c, st, tx, rate, parent).Of(tx).profile == 0
  {
    hide Synth.Program, Script, WordsOf, Valid;
    if Valid(c, rate) {
      ValidIsPositive(c, rate);
    }
  }

  lemma FixupMode(c: Config, st: Lo, tx: bool, w: Rfpll.Words, parent: Ref)
    requires InMode(c, st)
    ensures InMode(c, Fixup(c, st, tx, w, parent))
  {
    hide Leave, Tune, WordsOf, Valid, SideMode;
    if NeedsFixup(c, st) {
      if st.tx.lo == st.rx.lo {
        TuneMode(c, st, !tx, w, parent);
      } else {
        var other := st.Of(!tx).lo;
        if Valid(c, other) {
          ValidIsPositive(c, other);
        }
        LeaveClears(c, st, !tx);
        TuneMode(c, Leave(st, !tx), !tx, if Valid(c, other) then WordsOf(other, parent) else w, parent);
      }
    }
  }

  lemma LoadMode(c: Config, st: Lo, tx: bool, profile: nat, values: seq<bv8>)
    requires profile < 8 && |values| == FastLock.WORDS && InMode(c, st)
    ensures InMode(c, Load(st, tx, profile, values))
  {
    var e := Load(st, tx, profile, values);
    LoadFrame(st, tx, profile, values, FAST_SETUP);
    LoadFrame(st, tx, profile, values, FAST_SETUP + TX_OFFSET);
    KeptMode(c, st, e, false);
    KeptMode(c, st, e, true);
  }

  lemma RecallMode(c: Config, st: Lo, tx: bool, profile: nat)
    requires profile < 8 && InMode(c, st)
    ensures var r := Recall(c, st, tx, profile); r.Ok? ==> InMode(c, r.value)
  {
    var r := Recall(c, st, tx, profile);
    if r.Ok? {
      RecallSelects(c, st, tx, profile);
      hide Activate, NextAlc, CurrentAlc, AlcRewrite, RunsFrom;
      assert r.value.Of(!tx) == st.Of(!tx) && r.value.Of(tx).profile == profile + 1;
      assert r.value.Of(tx).entries[profile].initialised;
      hide Recall;
      KeptMode(c, st, r.value, !tx);
    }
  }

  /** Over every run from a reset the driver's profile is the one the device runs from. */
  lemma {:induction false} RunsKeepMode(c: Config, st: Lo, ops: seq<Op>, refs: Refs)
    requires Fresh(st) && Setup(st.dev, false) == 0 == Setup(st.dev, true)
    requires forall op :: op in ops ==> op.Ok()
    ensures InMode(c, Run(c, st, ops, refs))
    decreases |ops|
  {
    if ops != [] {
      var n := |ops| - 1;
      assert ops[n] in ops && ops[n].Ok();
      RunsKeepMode(c, st, ops[..n], refs);
      StepMode(c, Run(c, st, ops[..n], refs), ops[n], refs);
      hide Step, InMode;
    }
  }

  lemma StepMode(c: Config, st: Lo, op: Op, refs: Refs)
    requires op.Ok() && InMode(c, st)
    ensures InMode(c, Step(c, st, op, refs))
  {
    hide SetLo, Recall, Load, InMode, Snapshot;
    match op
    case TuneOp(tx, rate) => SetLoMode(c, st, tx, rate, refs.Of(tx));
    case LoadOp(tx, p, v) => LoadMode(c, st, tx, p, v);
    case StoreOp(tx, p) => LoadMode(c, st, tx, p, Snapshot(st.dev, tx));
    case RecallOp(tx, p) => RecallMode(c, st, tx, p);
  }

  /** So after every run the driver reports the carrier of each synthesiser. */
  lemma RunsReportCarrier(c: Config, st: Lo, ops: seq<Op>, refs: Refs, b: bool)
    requires Fresh(st) && Setup(st.dev, false) == 0 == Setup(st.dev, true)
    requires forall op :: op in ops ==> op.Ok()
    ensures var e := Run(c, st, ops, refs);
            Reported(e, b, refs.Of(b)) == Rfpll.ToClk(Carrier(e.dev, b, refs.Of(b)))
  {
    RunsKeepMode(c, st, ops, refs);
    hide Run, SideMode;
    ReportsCarrier(c, Run(c, st, ops, refs), b, refs.Of(b));
  }

  /** The driver takes its ALC word from where the device does. */
  lemma CurrentIsActive(c: Config, st: Lo, tx: bool)
    requires SideMode(c, st, tx) && ProfilesOk(st)
    ensures CurrentAlc(st, tx) == ActiveAlc(st.dev, tx)
  {
    var s := st.Of(tx);
    hide TopThree;
    assert SideOk(st.dev, tx, s.entries);
    if s.profile == 0 {
      SevenBits(st.dev.regs[FORCE_ALC + Offs(tx)]);
    } else {
      assert EntryOk(st.dev, tx, s.profile - 1, s.entries[s.profile - 1]);
    }
    hide Extracted;
  }

  lemma SevenBits(b: bv8)
    ensures Extracted(b, 0x7F, 0) == b & 0x7F
  {
  }

  /** A recall never leaves the device with the upper seven bits of the ALC word it
      had before, whether fast lock was on or off. */
  lemma RecallChangesActiveAlc(c: Config, st: Lo, tx: bool, profile: nat)
    requires profile < 8 && InMode(c, st) && ProfilesOk(st) && st.Of(tx).entries[profile].initialised
    ensures Recall(c, st, tx, profile).Ok?
    ensures ActiveAlc(Recall(c, st, tx, profile).value.dev, tx) >> 1 != ActiveAlc(st.dev, tx) >> 1
  {
    CurrentIsActive(c, st, tx);
    RecallChangesAlc(c, st, tx, profile);
    RecallSelects(c, st, tx, profile);
    hide Recall, CurrentAlc, TopThree;
  }
}
