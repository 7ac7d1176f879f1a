/** The two RF synthesisers as the driver keeps them: LO frequencies, VCO table
    kinds, and the fast-lock profiles used for frequency hopping. */
module LocalOscillator {
  import opened CTypes
  import opened Bytes
  import opened Registers
  import opened Device
  import Rfpll
  import FastLock
  import Synth

  datatype Config = Config(fdd: bool, fddIndependent: bool, tddSkipVcoCal: bool, ad9363a: bool,
                           rxDelayNs: nat, txDelayNs: nat, rxPinctrl: bool, txPinctrl: bool,
                           tables: Synth.Tables)
  {
    /** FDD with both synthesisers sharing one state machine. */
    predicate Shared() { fdd && !fddIndependent }
  }

  datatype Entry = Entry(initialised: bool, alcOrig: bv8, alcWritten: bv8)

  type Entries = e: seq<Entry> | |e| == 8 witness seq(8, _ => Entry(false, 0, 0))

  /** What the driver remembers per direction. A profile of 0 means fast lock is off. */
  datatype Side = Side(lo: u32, tdd: bool, cachedDiv: int, profile: nat, entries: Entries)

  type ValidSide = s: Side | s.profile <= 8 witness Side(0, false, 0, 0, seq(8, _ => Entry(false, 0, 0)))

  datatype Lo = Lo(dev: Device, rx: ValidSide, tx: ValidSide)
  {
    function Of(isTx: bool): ValidSide { if isTx then tx else rx }

    function With(isTx: bool, s: ValidSide): Lo { if isTx then this.(tx := s) else this.(rx := s) }
  }

  // ---- fast lock ----

  /** ad9361_trx_vco_cal_control */
  function VcoCal(tx: bool, enable: bool): Put {
    Put(Field(PFD_CONFIG + Offs(tx), 0x01, 0), if enable then 0 else 1)
  }

  function SynthReady(tx: bool, v: bv8): Put {
    Put(if tx then Field(ENSM_CONFIG_2, 0x01, 0) else Field(ENSM_CONFIG_2, 0x02, 1), v)
  }

  function ForceAlc(tx: bool, v: bv8): Put { Put(Field(FORCE_ALC + Offs(tx), 0x80, 7), v) }

  function ForceTune(tx: bool, v: bv8): Put { Put(Field(FORCE_VCO_TUNE_1 + Offs(tx), 0x01, 0), v) }

  /** The writes that take a synthesiser out of fast lock. */
  function LeaveScript(tx: bool): (ps: seq<Put>)
    ensures forall p :: p in ps ==> Harmless(p)
  {
    [Plain(FAST_SETUP + Offs(tx), 0), ForceAlc(tx, 1), ForceTune(tx, 1),
     ForceAlc(tx, 0), ForceTune(tx, 0), VcoCal(tx, true), SynthReady(tx, 0)]
  }

  /** ad9361_fastlock_prepare with prepare cleared. */
  function Leave(st: Lo, tx: bool): Lo {
    if st.Of(tx).profile == 0 then st
    else st.(dev := Script(st.dev, LeaveScript(tx))).With(tx, st.Of(tx).(profile := 0))
  }

  /** ad9361_fastlock_prepare with prepare set. */
  function Enter(c: Config, d: Device, st: Lo, tx: bool, profile: nat): (e: Device)
    ensures SameTuning(d, e) && SameClocks(d, e) && e.rxFast == d.rxFast && e.txFast == d.txFast
  {
    if st.Of(tx).profile != 0 then d
    else
      var d1 := Script(d, [Plain(FAST_INIT_DELAY + Offs(tx), ToByte((if tx then c.txDelayNs else c.rxDelayNs) / 250)),
                           Plain(FAST_SETUP + Offs(tx), ToByte((profile % 8) * 32 + 1))]);
      var d2 := Write(d1, FAST_CTRL + Offs(tx), 0);
      Script(d2, [SynthReady(tx, 1), VcoCal(tx, false)])
  }

  /** The ALC word in force before a recall. */
  function CurrentAlc(st: Lo, tx: bool): bv8 {
    var s := st.Of(tx);
    if s.profile == 0 then Extracted(st.dev.regs[FORCE_ALC + Offs(tx)], 0x7F, 0) << 1
    else s.entries[s.profile - 1].alcWritten
  }

  /** The ALC word a recall gives the profile. */
  function NextAlc(current: bv8, e: Entry): bv8 {
    if current >> 1 != e.alcWritten >> 1 then e.alcWritten
    else if e.alcOrig >> 1 == e.alcWritten >> 1 then e.alcWritten + 2
    else e.alcOrig
  }

  /** ad9361_fastlock_recall */
  function Recall(c: Config, st: Lo, tx: bool, profile: nat): (r: Result<Lo>)
    requires profile < 8
    ensures r.Ok? <==> st.Of(tx).entries[profile].initialised
  {
    var s := st.Of(tx);
    var e := s.entries[profile];
    if !e.initialised then Err
    else
      var alc := NextAlc(CurrentAlc(st, tx), e);
      Ok(RecallState(c, st, AlcRewrite(st, tx, profile, alc), tx, profile, alc))
  }

  /** The ALC word is only written again when it would repeat the current one. */
  function AlcRewrite(st: Lo, tx: bool, profile: nat, alc: bv8): Device
    requires profile < 8
  {
    if CurrentAlc(st, tx) >> 1 == st.Of(tx).entries[profile].alcWritten >> 1 then
      FastLock.WriteVal(st.dev, tx, profile, 15, alc, true)
    else st.dev
  }

  function Activate(c: Config, d: Device, st: Lo, tx: bool, profile: nat): (e: Device)
    ensures SameTuning(d, e) && SameClocks(d, e) && e.rxFast == d.rxFast && e.txFast == d.txFast
  {
    var pin := if (if tx then c.txPinctrl else c.rxPinctrl) then 2 else 0;
    Script(Enter(c, d, st, tx, profile), [Plain(FAST_SETUP + Offs(tx), ToByte((profile % 8) * 32 + pin + 1))])
  }

  /** The 16 words ad9361_fastlock_store collects: the frequency words, and what
      the VCO and the loop filter need. */
  function Snapshot(d: Device, tx: bool): (v: seq<bv8>)
    ensures |v| == FastLock.WORDS
  {
    FrequencyWords(d.regs, Offs(tx)) + TuningWords(d.regs, Offs(tx), ReadF(d.regs, DividerField(tx)))
  }

  function FrequencyWords(r: Regs, o: nat): (v: seq<bv8>)
    requires o <= TX_OFFSET
    ensures |v| == 5
  {
    [r[INTEGER_BYTE_0 + o], r[INTEGER_BYTE_1 + o], r[FRACT_BYTE_0 + o], r[FRACT_BYTE_1 + o], r[FRACT_BYTE_2 + o]]
  }

  function TuningWords(r: Regs, o: nat, divider: bv8): (v: seq<bv8>)
    requires o <= TX_OFFSET
    ensures |v| == 11
  {
    var cp := Extracted(r[CP_CURRENT + o], 0x3F, 0);
    var r3, c3 := Extracted(r[LOOP_FILTER_3 + o], 0x0F, 0), Extracted(r[LOOP_FILTER_2 + o], 0x0F, 0);
    var r1 := Extracted(r[LOOP_FILTER_2 + o], 0xF0, 4);
    [(Extracted(r[VCO_BIAS_1 + o], 0x07, 0) << 4) | Extracted(r[ALC_VARACTOR + o], 0x0F, 0),
     (Extracted(r[VCO_BIAS_1 + o], 0x18, 3) << 3) | cp, cp,
     (r3 << 4) | r3, (c3 << 4) | c3,
     (Extracted(r[LOOP_FILTER_1 + o], 0x0F, 0) << 4) | Extracted(r[LOOP_FILTER_1 + o], 0xF0, 4),
     (r1 << 4) | r1,
     (Extracted(r[VCO_VARACTOR_CTRL_0 + o], 0x70, 4) << 4) | divider,
     (Extracted(r[FORCE_VCO_TUNE_1 + o], 0x78, 3) << 4) | Extracted(r[VCO_VARACTOR_CTRL_1 + o], 0x0F, 0),
     r[FORCE_VCO_TUNE_0 + o],
     (Extracted(r[FORCE_ALC + o], 0x7F, 0) << 1) | Extracted(r[FORCE_VCO_TUNE_1 + o], 0x01, 0)]
  }

  /** The driver state after ad9361_fastlock_load. */
  function Load(st: Lo, tx: bool, profile: nat, values: seq<bv8>): Lo
    requires profile < 8 && |values| == FastLock.WORDS
  {
    st.(dev := FastLock.Loaded(st.dev, tx, profile, values))
      .With(tx, st.Of(tx).(entries := st.Of(tx).entries[profile := Entry(true, values[15], values[15])]))
  }

  // ---- tuning ----

  /** Whether the TDD synthesiser table is used for the LOs as they stand. */
  predicate UsesTdd(c: Config, st: Lo) { !(c.Shared() && st.tx.lo != st.rx.lo) }

  /** The condition under which the other synthesiser is programmed again. */
  predicate NeedsFixup(c: Config, st: Lo) {
    || (c.Shared() && st.tx.lo == st.rx.lo && st.tx.tdd != st.rx.tdd)
    || (c.Shared() && st.tx.lo != st.rx.lo && (st.tx.tdd || st.rx.tdd))
  }

  /** One turn of the do/while in ad9361_rfpll_int_set_rate. */
  function Tune(c: Config, st: Lo, tx: bool, w: Rfpll.Words, parent: nat): Lo {
    var tdd := UsesTdd(c, st);
    var t := c.tables(tdd, Synth.TableIndex(parent), Synth.LutRow(w.vco));
    var div := if w.vcoDiv < 0 then 0 else w.vcoDiv;
    st.(dev := Synth.Program(st.dev, tx, w.integer, w.fract, div, t)).With(tx, st.Of(tx).(tdd := tdd))
  }

  predicate Valid(c: Config, lo: u32) { Rfpll.ValidCarrier(Rfpll.FromClk(lo), c.ad9363a) }

  lemma ValidIsPositive(c: Config, rate: u32)
    requires Valid(c, rate)
    ensures rate > 0
  {
  }

  function WordsOf(lo: u32, parent: nat): Rfpll.Words
    requires lo > 0 && parent > 0
  {
    Rfpll.WordsFor(Rfpll.FromClk(lo), parent)
  }

  /** The second turn: the other synthesiser gets the words of its own LO, or
      those just computed when both LOs agree. */
  function Fixup(c: Config, st: Lo, tx: bool, w: Rfpll.Words, parent: nat): Lo
    requires parent > 0
  {
    if !NeedsFixup(c, st) then st
    else if st.tx.lo == st.rx.lo then Tune(c, st, !tx, w, parent)
    else
      var other := st.Of(!tx).lo;
      var w2 := if Valid(c, other) then WordsOf(other, parent) else w;
      Tune(c, Leave(st, !tx), !tx, w2, parent)
  }

  function SkipCal(c: Config, st: Lo, tx: bool, enable: bool): Lo {
    if c.tddSkipVcoCal then st.(dev := Script(st.dev, [VcoCal(tx, enable)])) else st
  }

  /** The state after the first turn of the loop. */
  function FirstTurn(c: Config, st: Lo, tx: bool, rate: u32, parent: nat): Lo
    requires parent > 0 && Valid(c, rate)
  {
    var w := WordsOf(rate, parent);
    Tune(c, SkipCal(c, st.With(tx, st.Of(tx).(lo := rate, cachedDiv := w.vcoDiv)), tx, true), tx, w, parent)
  }

  /** ad9361_rfpll_int_set_rate */
  function SetLo(c: Config, st: Lo, tx: bool, rate: u32, parent: nat): Lo
    requires parent > 0
  {
    var st1 := Leave(st, tx);
    if !Valid(c, rate) then st1
    else
      SkipCal(c, Fixup(c, FirstTurn(c, st1, tx, rate, parent), tx, WordsOf(rate, parent), parent), tx, false)
  }

  /** The carrier the driver reports, halved: ad9361_rfpll_int_recalc_rate. */
  function Reported(st: Lo, tx: bool, parent: nat): u32 {
    var s := st.Of(tx);
    Rfpll.ToClk(if s.profile == 0 then Synth.RegFreq(st.dev, tx, parent)
                else Synth.ProfileFreq(st.dev, tx, s.profile - 1, parent))
  }

  /** Its side effect: reading a profile moves the program address register. */
  function AfterReport(st: Lo, tx: bool): Device {
    if st.Of(tx).profile == 0 then st.dev else FastLock.Select(st.dev, tx, st.Of(tx).profile - 1, 12)
  }

  // ---- what tuning guarantees ----

  /** The reference rates of a synthesiser. */
  type Ref = p: int | Rfpll.MIN_REF <= p <= Rfpll.MAX_REF witness 40000000

  /** A reference rate for each synthesiser: the one it runs from, or the one its
      words were computed for. */
  datatype Refs = Refs(rx: Ref, tx: Ref)
  {
    function Of(isTx: bool): Ref { if isTx then tx else rx }

    function With(isTx: bool, p: Ref): Refs { if isTx then this.(tx := p) else this.(rx := p) }
  }

  predicate HoldsWords(d: Device, tx: bool, w: Rfpll.Words) {
    w.vcoDiv >= 0 && Synth.Holds(d, tx, w.integer, w.fract, w.vcoDiv)
  }

  /** A synthesiser that has been given an LO holds its words for a reference rate. */
  predicate SideTuned(c: Config, st: Lo, tx: bool, parent: Ref) {
    var s := st.Of(tx);
    && (s.lo != 0 ==> Valid(c, s.lo) && HoldsWords(st.dev, tx, WordsOf(s.lo, parent)))
    && (s.tdd ==> s.lo != 0)
  }

  predicate Tuned(c: Config, st: Lo, heldFor: Refs) {
    SideTuned(c, st, false, heldFor.rx) && SideTuned(c, st, true, heldFor.tx)
  }

  lemma QuietHolds(d: Device, e: Device, tx: bool, w: Rfpll.Words)
    requires SameTuning(d, e)
    ensures HoldsWords(d, tx, w) <==> HoldsWords(e, tx, w)
  {
  }

  lemma TuneLaw(c: Config, st: Lo, tx: bool, lo: u32, parent: Ref)
    requires Valid(c, lo)
    ensures var w := WordsOf(lo, parent);
            var e := Tune(c, st, tx, w, parent);
            && HoldsWords(e.dev, tx, w)
            && (forall b, v :: b != tx && HoldsWords(st.dev, b, v) ==> HoldsWords(e.dev, b, v))
            && e == st.(dev := e.dev).With(tx, st.Of(tx).(tdd := UsesTdd(c, st)))
            && SameClocks(st.dev, e.dev) && e.dev.rxFast == st.dev.rxFast && e.dev.txFast == st.dev.txFast
  {
    var w := WordsOf(lo, parent);
    Rfpll.WordsFitRegisters(Rfpll.FromClk(lo), parent, c.ad9363a);
    Synth.ProgramLaw(st.dev, tx, w.integer, w.fract, w.vcoDiv,
                     c.tables(UsesTdd(c, st), Synth.TableIndex(parent), Synth.LutRow(w.vco)));
  }

  /** The driver state the do/while sees, with the device left out. */
  datatype Flags = Flags(lo: u32, otherLo: u32, tdd: bool, otherTdd: bool)

  function FlagsOf(st: Lo, tx: bool): Flags {
    Flags(st.Of(tx).lo, st.Of(!tx).lo, st.Of(tx).tdd, st.Of(!tx).tdd)
  }

  lemma TuneFlags(c: Config, st: Lo, tx: bool, w: Rfpll.Words, parent: nat)
    ensures FlagsOf(Tune(c, st, tx, w, parent), tx) == FlagsOf(st, tx).(tdd := UsesTdd(c, st))
    ensures FlagsOf(Tune(c, st, tx, w, parent), !tx) == FlagsOf(st, !tx).(otherTdd := UsesTdd(c, st))
  {
  }

  lemma SilentFlags(c: Config, st: Lo, tx: bool, b: bool, enable: bool)
    ensures FlagsOf(Leave(st, b), tx) == FlagsOf(SkipCal(c, st, b, enable), tx) == FlagsOf(st, tx)
  {
  }

  /** Two turns of the loop always suffice, from any prior state. Afterwards a
      shared-mode pair uses one kind of table, the TDD one exactly when the two
      LO frequencies are equal. */
  lemma FixupSettles(c: Config, st: Lo, tx: bool, rate: u32, parent: nat)
    requires parent > 0 && Valid(c, rate)
    ensures var e := SetLo(c, st, tx, rate, parent);
            && e.Of(tx).lo == rate && e.Of(!tx).lo == st.Of(!tx).lo
            && !NeedsFixup(c, e)
            && (c.Shared() ==> e.rx.tdd == e.tx.tdd == (e.rx.lo == e.tx.lo))
            && (!c.Shared() ==> e.Of(tx).tdd && e.Of(!tx).tdd == st.Of(!tx).tdd)
  {
    var st1, w := Leave(st, tx), WordsOf(rate, parent);
    SilentFlags(c, st, tx, tx, true);
    FirstTurnFlags(c, st1, tx, rate, parent);
    var st3 := FirstTurn(c, st1, tx, rate, parent);
    FixupFlags(c, st3, tx, w, parent);
    var st4 := Fixup(c, st3, tx, w, parent);
    SilentFlags(c, st4, tx, tx, false);
    assert FlagsOf(SetLo(c, st, tx, rate, parent), tx) == FlagsOf(st4, tx);
  }

  lemma FirstTurnFlags(c: Config, st: Lo, tx: bool, rate: u32, parent: nat)
    requires parent > 0 && Valid(c, rate)
    ensures FlagsOf(FirstTurn(c, st, tx, rate, parent), tx) ==
              Flags(rate, st.Of(!tx).lo, !(c.Shared() && st.Of(!tx).lo != rate), st.Of(!tx).tdd)
  {
    var w := WordsOf(rate, parent);
    var st2 := st.With(tx, st.Of(tx).(lo := rate, cachedDiv := w.vcoDiv));
    SilentFlags(c, st2, tx, tx, true);
    TuneFlags(c, SkipCal(c, st2, tx, true), tx, w, parent);
  }

  lemma NoThirdTurn(c: Config, st: Lo, tx: bool, rate: u32, parent: nat)
    requires parent > 0 && Valid(c, rate)
    ensures !NeedsFixup(c, Fixup(c, FirstTurn(c, st, tx, rate, parent), tx, WordsOf(rate, parent), parent))
  {
    FirstTurnFlags(c, st, tx, rate, parent);
    FixupFlags(c, FirstTurn(c, st, tx, rate, parent), tx, WordsOf(rate, parent), parent);
  }

  lemma FixupFlags(c: Config, st: Lo, tx: bool, w: Rfpll.Words, parent: nat)
    requires parent > 0
    ensures FlagsOf(Fixup(c, st, tx, w, parent), tx) ==
              FlagsOf(st, tx).(otherTdd := if NeedsFixup(c, st) then UsesTdd(c, st) else st.Of(!tx).tdd)
  {
    if NeedsFixup(c, st) {
      var other := st.Of(!tx).lo;
      var w2 := if st.tx.lo == st.rx.lo || !Valid(c, other) then w else WordsOf(other, parent);
      SilentFlags(c, st, tx, !tx, true);
      TuneFlags(c, st, !tx, w2, parent);
      TuneFlags(c, Leave(st, !tx), !tx, w2, parent);
    }
  }

  /** Leaving fast lock only clears the profile of its side and the setup registers:
      the words, the clocks and the stored profiles of both sides stay. */
  lemma LeaveLaw(c: Config, st: Lo, tx: bool, heldFor: Refs)
    ensures var e := Leave(st, tx);
            && Quiet(st.dev, e.dev) && e.Of(tx) == st.Of(tx).(profile := 0) && e.Of(!tx) == st.Of(!tx)
            && (Tuned(c, st, heldFor) ==> Tuned(c, e, heldFor))
  {
    var e := Leave(st, tx);
    assert Quiet(st.dev, e.dev);
    forall b, w ensures HoldsWords(st.dev, b, w) <==> HoldsWords(e.dev, b, w) {
      QuietHolds(st.dev, e.dev, b, w);
    }
  }

  lemma SkipLaw(c: Config, st: Lo, tx: bool, enable: bool, heldFor: Refs)
    ensures var e := SkipCal(c, st, tx, enable);
            && Quiet(st.dev, e.dev) && e.rx == st.rx && e.tx == st.tx
            && (forall b, w :: HoldsWords(st.dev, b, w) <==> HoldsWords(e.dev, b, w))
            && (Tuned(c, st, heldFor) ==> Tuned(c, e, heldFor))
  {
    var e := SkipCal(c, st, tx, enable);
    forall b, w ensures HoldsWords(st.dev, b, w) <==> HoldsWords(e.dev, b, w) {
      QuietHolds(st.dev, e.dev, b, w);
    }
  }

  predicate SameProfiles(st: Lo, e: Lo) {
    && e.dev.rxFast == st.dev.rxFast && e.dev.txFast == st.dev.txFast
    && e.rx.entries == st.rx.entries && e.tx.entries == st.tx.entries
  }

  /** The second turn computes words for the reference of the first one. */
  lemma FixupLaw(c: Config, st: Lo, tx: bool, heldFor: Refs, parent: Ref)
    requires Tuned(c, st, heldFor) && Valid(c, st.Of(tx).lo)
    requires c.Shared() && st.tx.lo != st.rx.lo ==> !st.Of(tx).tdd
    ensures var e := Fixup(c, st, tx, WordsOf(st.Of(tx).lo, parent), parent);
            && Tuned(c, e, if NeedsFixup(c, st) then heldFor.With(!tx, parent) else heldFor)
            && SameClocks(st.dev, e.dev) && SameProfiles(st, e)
            && e.Of(tx) == st.Of(tx) && e.Of(!tx).lo == st.Of(!tx).lo
  {
    if NeedsFixup(c, st) {
      if st.tx.lo == st.rx.lo {
        TuneLaw(c, st, !tx, st.Of(tx).lo, parent);
      } else {
        LeaveLaw(c, st, !tx, heldFor);
        TuneLaw(c, Leave(st, !tx), !tx, st.Of(!tx).lo, parent);
      }
    }
  }

  lemma FirstTurnLaw(c: Config, st: Lo, tx: bool, rate: u32, heldFor: Refs, parent: Ref)
    requires Tuned(c, st, heldFor) && Valid(c, rate)
    ensures var e := FirstTurn(c, st, tx, rate, parent);
            && Tuned(c, e, heldFor.With(tx, parent)) && SameClocks(st.dev, e.dev) && SameProfiles(st, e)
            && e.Of(tx).lo == rate && e.Of(tx).profile == st.Of(tx).profile && e.Of(tx).tdd == UsesTdd(c, e)
            && e.Of(!tx) == st.Of(!tx)
  {
    hide Tune, SkipCal, WordsOf, Valid, HoldsWords;
    ValidIsPositive(c, rate);
    var w := WordsOf(rate, parent);
    var st2 := st.With(tx, st.Of(tx).(lo := rate, cachedDiv := w.vcoDiv));
    SkipLaw(c, st2, tx, true, heldFor);
    TuneLaw(c, SkipCal(c, st2, tx, true), tx, rate, parent);
  }

  /** Whether tuning to a rate will program the other synthesiser too: its kind of
      table is not the one that goes with the two LOs. */
  predicate FixupDue(c: Config, st: Lo, tx: bool, rate: u32) {
    c.Shared() && st.Of(!tx).tdd != (st.Of(!tx).lo == rate)
  }

  /** The references the words are for after tuning one side from its own: that side
      gets words for its reference, and so does the other one if it is fixed up. */
  function NextHeldFor(c: Config, st: Lo, tx: bool, rate: u32, heldFor: Refs, refs: Refs): Refs {
    if !Valid(c, rate) then heldFor
    else if FixupDue(c, st, tx, rate) then Refs(refs.Of(tx), refs.Of(tx))
    else heldFor.With(tx, refs.Of(tx))
  }

  /** Tuning one LO leaves both synthesisers holding the words of their LOs, the
      other one possibly for the reference of the tuned one. */
  lemma SetLoKeepsTuned(c: Config, st: Lo, tx: bool, rate: u32, heldFor: Refs, refs: Refs)
    requires Tuned(c, st, heldFor)
    ensures var e := SetLo(c, st, tx, rate, refs.Of(tx));
            && Tuned(c, e, NextHeldFor(c, st, tx, rate, heldFor, refs))
            && SameClocks(st.dev, e.dev) && SameProfiles(st, e)
            && (Valid(c, rate) ==> e.Of(tx).lo == rate) && e.Of(!tx).lo == st.Of(!tx).lo && e.Of(tx).profile == 0
  {
    hide Leave, Fixup, SkipCal, FirstTurn, SideTuned, WordsOf, Valid;
    LeaveLaw(c, st, tx, heldFor);
    if Valid(c, rate) {
      ValidIsPositive(c, rate);
      var parent := refs.Of(tx);
      FirstTurnLaw(c, Leave(st, tx), tx, rate, heldFor, parent);
      var st3 := FirstTurn(c, Leave(st, tx), tx, rate, parent);
      FixupLaw(c, st3, tx, heldFor.With(tx, parent), parent);
      var st4 := Fixup(c, st3, tx, WordsOf(rate, parent), parent);
      SkipLaw(c, st4, tx, false, NextHeldFor(c, st, tx, rate, heldFor, refs));
    }
  }

  // ---- words for one reference, synthesiser on another ----

  /** Words determine the reference they were computed for: a whole hertz of
      reference moves the VCO by its integer word, at least 75 Hz. */
  lemma WordsNameTheirReference(c: Config, lo: u32, p: Ref, q: Ref)
    requires Valid(c, lo)
    requires WordsOf(lo, p).integer == WordsOf(lo, q).integer && WordsOf(lo, p).fract == WordsOf(lo, q).fract
    ensures p == q
  {
    var w := WordsOf(lo, p);
    Rfpll.WordsFitRegisters(Rfpll.FromClk(lo), p, c.ad9363a);
    Rfpll.WordsFitRegisters(Rfpll.FromClk(lo), q, c.ad9363a);
    Rfpll.VcoError(w.vco, p);
    Rfpll.VcoError(w.vco, q);
    hide Rfpll.WordsFor, Rfpll.ValidCarrier, WordsOf;
    if p < q {
      ReferenceMovesVco(p, q, w.integer, w.fract, w.vco);
    } else if q < p {
      ReferenceMovesVco(q, p, w.integer, w.fract, w.vco);
    }
  }

  lemma ReferenceMovesVco(p: Ref, q: Ref, integer: nat, fract: nat, vco: nat)
    requires p < q && vco > Rfpll.MIN_VCO && integer == vco / p
    ensures (q * fract) / Rfpll.MODULUS + q * integer >= (p * fract) / Rfpll.MODULUS + p * integer + 75
  {
    DivBounds(vco, p);
    MulMonotone(75, p, Rfpll.MAX_REF);
    assert p * 75 == 75 * p;
    assert p * (integer + 1) == p * integer + p;
    Cancel(p, 75, integer + 1);
    MulMonotone(integer, p + 1, q);
    assert integer * (p + 1) == integer * p + integer;
    assert integer * q == q * integer && integer * p == p * integer;
    MulMonotone(fract, p, q);
    assert fract * p == p * fract && fract * q == q * fract;
  }

  /** Holding the words for one reference is holding those for another exactly when
      the two are equal. */
  lemma TunedForOne(c: Config, st: Lo, tx: bool, p: Ref, q: Ref)
    requires SideTuned(c, st, tx, p) && st.Of(tx).lo != 0
    ensures SideTuned(c, st, tx, q) <==> p == q
  {
    hide WordsOf, Valid;
    if SideTuned(c, st, tx, q) {
      WordsNameTheirReference(c, st.Of(tx).lo, p, q);
    }
  }

  /** One call, with both synthesisers right before it: afterwards the other one
      still holds its own words exactly when the references agree, or nothing had
      to be fixed up. The tuned one is always right. */
  lemma OtherKeepsItsWords(c: Config, st: Lo, tx: bool, rate: u32, refs: Refs)
    requires Tuned(c, st, refs) && Valid(c, rate)
    ensures var e := SetLo(c, st, tx, rate, refs.Of(tx));
            && SideTuned(c, e, tx, refs.Of(tx))
            && (SideTuned(c, e, !tx, refs.Of(!tx)) <==> refs.rx == refs.tx || !FixupDue(c, st, tx, rate))
  {
    hide SetLo, WordsOf;
    SetLoKeepsTuned(c, st, tx, rate, refs, refs);
    var e := SetLo(c, st, tx, rate, refs.Of(tx));
    if FixupDue(c, st, tx, rate) {
      assert e.Of(!tx).lo != 0;
      TunedForOne(c, e, !tx, refs.Of(tx), refs.Of(!tx));
    }
  }

  /** After tuning, the reported rate is the requested one within rounding:
      3 Hz of carrier, hence 2 in the halved unit. */
  lemma TunedReportsItsLo(c: Config, st: Lo, tx: bool, parent: Ref)
    requires SideTuned(c, st, tx, parent)
    requires st.Of(tx).lo != 0 && st.Of(tx).profile == 0
    ensures -2 <= Reported(st, tx, parent) - st.Of(tx).lo <= 1
  {
    var lo := st.Of(tx).lo;
    var w := WordsOf(lo, parent);
    Rfpll.CarrierRoundTrip(Rfpll.FromClk(lo), parent, c.ad9363a);
    HalvedReport(lo, Rfpll.FreqOf(w.integer, w.fract, w.vcoDiv, parent));
  }

  lemma HalvedReport(lo: u32, freq: nat)
    requires -3 <= freq - 2 * lo <= 2 && lo <= 3000000000
    ensures -2 <= Rfpll.ToClk(freq) - lo <= 1
  {
  }

  // ---- what fast lock guarantees ----

  /** The driver's record of an initialised profile: its ALC word as written is
      the original one or two above it, and is the word in the device. */
  predicate EntryOk(d: Device, tx: bool, p: nat, e: Entry)
    requires p < 8
  {
    e.initialised ==>
      && (e.alcWritten == e.alcOrig || e.alcWritten == e.alcOrig + 2)
      && FastLock.WordAt(d, tx, p, 15) == e.alcWritten
  }

  predicate SideOk(d: Device, tx: bool, es: Entries) {
    forall p :: 0 <= p < 8 ==> EntryOk(d, tx, p, es[p])
  }

  predicate ProfilesOk(st: Lo) {
    SideOk(st.dev, false, st.rx.entries) && SideOk(st.dev, true, st.tx.entries)
  }

  lemma AlcStep(current: bv8, e: Entry)
    requires e.alcWritten == e.alcOrig || e.alcWritten == e.alcOrig + 2
    ensures NextAlc(current, e) == e.alcOrig || NextAlc(current, e) == e.alcOrig + 2
    ensures NextAlc(current, e) >> 1 != current >> 1
  {
    var w, o := e.alcWritten, e.alcOrig;
    assert (w + 2) >> 1 != w >> 1;
  }

  lemma RewriteLaw(st: Lo, tx: bool, profile: nat)
    requires profile < 8
    requires EntryOk(st.dev, tx, profile, st.Of(tx).entries[profile]) && st.Of(tx).entries[profile].initialised
    ensures var alc := NextAlc(CurrentAlc(st, tx), st.Of(tx).entries[profile]);
            var e := AlcRewrite(st, tx, profile, alc);
            && e.Fast(tx) == st.dev.Fast(tx)[profile * 16 + 15 := alc] && e.Fast(!tx) == st.dev.Fast(!tx)
            && SameTuning(st.dev, e) && SameClocks(st.dev, e)
  {
    FastLock.WriteValLaw(st.dev, tx, profile, 15, NextAlc(CurrentAlc(st, tx), st.Of(tx).entries[profile]));
  }

  /** What a successful recall does, apart from the setup registers. */
  predicate Recalled(st: Lo, e: Lo, tx: bool, profile: nat, alc: bv8)
    requires profile < 8
  {
    var s := st.Of(tx);
    && e.Of(tx) == s.(profile := profile + 1, entries := s.entries[profile := s.entries[profile].(alcWritten := alc)])
    && e.Of(!tx) == st.Of(!tx)
    && e.dev.Fast(tx) == st.dev.Fast(tx)[profile * 16 + 15 := alc] && e.dev.Fast(!tx) == st.dev.Fast(!tx)
    && SameTuning(st.dev, e.dev)
  }

  /** The driver state a recall builds from the rewritten device. */
  function RecallState(c: Config, st: Lo, d: Device, tx: bool, profile: nat, alc: bv8): Lo
    requires profile < 8
  {
    var s := st.Of(tx);
    st.(dev := Activate(c, d, st, tx, profile))
      .With(tx, s.(profile := profile + 1, entries := s.entries[profile := s.entries[profile].(alcWritten := alc)]))
  }

  lemma RecallLaw(c: Config, st: Lo, tx: bool, profile: nat)
    requires profile < 8 && st.Of(tx).entries[profile].initialised
    requires EntryOk(st.dev, tx, profile, st.Of(tx).entries[profile])
    ensures Recall(c, st, tx, profile).Ok?
    ensures Recalled(st, Recall(c, st, tx, profile).value, tx, profile,
                     NextAlc(CurrentAlc(st, tx), st.Of(tx).entries[profile]))
  {
    RewriteLaw(st, tx, profile);
    hide Activate, NextAlc, CurrentAlc, AlcRewrite;
  }

  /** A recall activates the profile and keeps the records of all profiles right. */
  lemma RecallKeepsProfiles(c: Config, st: Lo, tx: bool, profile: nat)
    requires profile < 8 && ProfilesOk(st)
    ensures var e := Recall(c, st, tx, profile);
            e.Ok? ==> ProfilesOk(e.value) && e.value.Of(tx).profile == profile + 1 && e.value.Of(!tx) == st.Of(!tx)
  {
    var es := st.Of(tx).entries;
    if es[profile].initialised {
      assert SideOk(st.dev, tx, es) && EntryOk(st.dev, tx, profile, es[profile]);
      RecallLaw(c, st, tx, profile);
      AlcStep(CurrentAlc(st, tx), es[profile]);
      hide Recall, NextAlc, CurrentAlc;
      AfterRecall(st, Recall(c, st, tx, profile).value, tx, profile, NextAlc(CurrentAlc(st, tx), es[profile]));
    }
  }

  /** It never leaves the recalled profile with the ALC word that was in force
      before, neither in the record nor in the device. */
  lemma RecallChangesAlc(c: Config, st: Lo, tx: bool, profile: nat)
    requires profile < 8 && ProfilesOk(st) && st.Of(tx).entries[profile].initialised
    ensures var e := Recall(c, st, tx, profile).value;
            && e.Of(tx).entries[profile].alcWritten >> 1 != CurrentAlc(st, tx) >> 1
            && FastLock.WordAt(e.dev, tx, profile, 15) == e.Of(tx).entries[profile].alcWritten
  {
    var es := st.Of(tx).entries;
    assert SideOk(st.dev, tx, es) && EntryOk(st.dev, tx, profile, es[profile]);
    RecallLaw(c, st, tx, profile);
    AlcStep(CurrentAlc(st, tx), es[profile]);
    hide Recall, NextAlc, CurrentAlc;
  }

  lemma AfterRecall(st: Lo, e: Lo, tx: bool, profile: nat, alc: bv8)
    requires profile < 8 && ProfilesOk(st) && Recalled(st, e, tx, profile, alc)
    requires var o := st.Of(tx).entries[profile].alcOrig; alc == o || alc == o + 2
    ensures ProfilesOk(e) && FastLock.WordAt(e.dev, tx, profile, 15) == alc
  {
    var es := st.Of(tx).entries;
    assert SideOk(st.dev, tx, es) && SideOk(st.dev, !tx, st.Of(!tx).entries);
    SideAfterWord(st.dev, e.dev, tx, es, profile, es[profile].(alcWritten := alc));
    assert SideOk(e.dev, !tx, e.Of(!tx).entries) by {
      var others := e.Of(!tx).entries;
      forall p | 0 <= p < 8 ensures EntryOk(e.dev, !tx, p, others[p]) {
        assert EntryOk(st.dev, !tx, p, others[p]);
      }
    }
  }

  /** Rewriting the last word of one profile only concerns its own record. */
  lemma SideAfterWord(d: Device, e: Device, tx: bool, es: Entries, profile: nat, entry: Entry)
    requires profile < 8 && SideOk(d, tx, es)
    requires e.Fast(tx) == d.Fast(tx)[profile * 16 + 15 := entry.alcWritten]
    requires entry.alcWritten == entry.alcOrig || entry.alcWritten == entry.alcOrig + 2
    ensures SideOk(e, tx, es[profile := entry])
  {
    var after := es[profile := entry];
    forall p | 0 <= p < 8 ensures EntryOk(e, tx, p, after[p]) {
      assert EntryOk(d, tx, p, es[p]);
    }
  }

  lemma LoadKeepsProfiles(st: Lo, tx: bool, profile: nat, values: seq<bv8>)
    requires profile < 8 && |values| == FastLock.WORDS && ProfilesOk(st)
    ensures ProfilesOk(Load(st, tx, profile, values))
  {
    var e := Load(st, tx, profile, values);
    assert SideOk(st.dev, tx, st.Of(tx).entries);
    forall p | 0 <= p < 8 ensures EntryOk(e.dev, tx, p, e.Of(tx).entries[p]) {
      assert EntryOk(st.dev, tx, p, st.Of(tx).entries[p]);
    }
    assert SideOk(e.dev, tx, e.Of(tx).entries);
    assert SideOk(e.dev, !tx, e.Of(!tx).entries) by {
      assert SideOk(st.dev, !tx, st.Of(!tx).entries) && e.dev.Fast(!tx) == st.dev.Fast(!tx);
    }
  }

  /** Recalling a profile that stores the tuned LO reports the carrier held in
      the synthesiser registers, whatever fast lock had been doing before. */
  lemma StoreThenRecall(c: Config, st: Lo, tx: bool, profile: nat, parent: nat)
    requires profile < 8
    ensures var stored := Load(st, tx, profile, Snapshot(st.dev, tx));
            var e := Recall(c, stored, tx, profile);
            && e.Ok? && Reported(e.value, tx, parent) == Rfpll.ToClk(Synth.RegFreq(st.dev, tx, parent))
            && (st.Of(tx).profile == 0 ==> Reported(e.value, tx, parent) == Reported(st, tx, parent))
  {
    var v := Snapshot(st.dev, tx);
    var stored := Load(st, tx, profile, v);
    assert EntryOk(stored.dev, tx, profile, stored.Of(tx).entries[profile]);
    RecallLaw(c, stored, tx, profile);
    ReportOfSnapshot(st, stored, Recall(c, stored, tx, profile).value, tx, profile, parent,
                     NextAlc(CurrentAlc(stored, tx), stored.Of(tx).entries[profile]));
  }

  lemma ReportOfSnapshot(st: Lo, stored: Lo, e: Lo, tx: bool, profile: nat, parent: nat, alc: bv8)
    requires profile < 8 && stored == Load(st, tx, profile, Snapshot(st.dev, tx))
    requires Recalled(stored, e, tx, profile, alc)
    ensures Reported(e, tx, parent) == Rfpll.ToClk(Synth.RegFreq(st.dev, tx, parent))
  {
    StoredFrequency(st, stored, e, tx, profile, parent, alc);
    hide Synth.ProfileFreq, Synth.RegFreq, Rfpll.ToClk;
  }

  /** The recalled profile stands for the frequency of the registers it was stored from. */
  lemma StoredFrequency(st: Lo, stored: Lo, e: Lo, tx: bool, profile: nat, parent: nat, alc: bv8)
    requires profile < 8 && stored == Load(st, tx, profile, Snapshot(st.dev, tx))
    requires Recalled(stored, e, tx, profile, alc)
    ensures Synth.ProfileFreq(e.dev, tx, profile, parent) == Synth.RegFreq(st.dev, tx, parent)
  {
    hide Snapshot, Rfpll.FreqOf, Synth.IntegerOf, Synth.FractOf, Low4, Synth.RegDivider;
    var v := Snapshot(st.dev, tx);
    RecalledWords(st.dev, e.dev, tx, profile, v, alc);
    PackedDivider(st.dev, tx);
    SnapshotWords(st.dev, tx);
  }

  lemma SnapshotWords(d: Device, tx: bool)
    ensures var v, o := Snapshot(d, tx), Offs(tx);
            v[0] == d.regs[INTEGER_BYTE_0 + o] && v[1] == d.regs[INTEGER_BYTE_1 + o] && v[2] == d.regs[FRACT_BYTE_0 + o]
            && v[3] == d.regs[FRACT_BYTE_1 + o] && v[4] == d.regs[FRACT_BYTE_2 + o]
  {
    hide Extracted, ReadF, TuningWords;
  }

  lemma RecalledWords(d: Device, e: Device, tx: bool, profile: nat, v: seq<bv8>, last: bv8)
    requires profile < 8 && |v| == FastLock.WORDS
    requires e.Fast(tx) == FastLock.Spliced(d.Fast(tx), profile, v)[profile * 16 + 15 := last]
    ensures forall k :: 0 <= k < 15 ==> FastLock.WordAt(e, tx, profile, k) == v[k]
  {
  }

  lemma PackedDivider(d: Device, tx: bool)
    ensures Low4(Snapshot(d, tx)[12]) == Synth.RegDivider(d, tx)
  {
    hide Low4, ReadF, Extracted;
    var x := Extracted(d.regs[VCO_VARACTOR_CTRL_0 + Offs(tx)], 0x70, 4);
    var y := ReadF(d.regs, DividerField(tx));
    DividerIsNibble(d.regs, tx);
    LowOfPair(x, y);
    DividerWord(d.regs, Offs(tx), y);
    assert Snapshot(d, tx)[12] == TuningWords(d.regs, Offs(tx), y)[7];
    hide Snapshot;
  }

  lemma DividerWord(r: Regs, o: nat, divider: bv8)
    requires o <= TX_OFFSET
    ensures TuningWords(r, o, divider)[7] == (Extracted(r[VCO_VARACTOR_CTRL_0 + o], 0x70, 4) << 4) | divider
  {
    hide Extracted;
  }

  lemma DividerIsNibble(r: Regs, tx: bool)
    ensures ReadF(r, DividerField(tx)) & 0x0F == ReadF(r, DividerField(tx))
  {
  }

  // ---- whole runs ----

  datatype Op =
    | TuneOp(tx: bool, rate: u32)
    | LoadOp(tx: bool, profile: nat, values: seq<bv8>)
    | StoreOp(tx: bool, profile: nat)
    | RecallOp(tx: bool, profile: nat)
  {
    predicate Ok() {
      match this
      case TuneOp(_, _) => true
      case LoadOp(_, p, v) => p < 8 && |v| == FastLock.WORDS
      case StoreOp(_, p) => p < 8
      case RecallOp(_, p) => p < 8
    }
  }

  /** One operation; tuning uses the reference of the side it is for. */
  function Step(c: Config, st: Lo, op: Op, refs: Refs): Lo
    requires op.Ok()
  {
    match op
    case TuneOp(tx, rate) => SetLo(c, st, tx, rate, refs.Of(tx))
    case LoadOp(tx, p, v) => Load(st, tx, p, v)
    case StoreOp(tx, p) => Load(st, tx, p, Snapshot(st.dev, tx))
    case RecallOp(tx, p) => var r := Recall(c, st, tx, p); if r.Ok? then r.value else st
  }

  function Run(c: Config, st: Lo, ops: seq<Op>, refs: Refs): Lo
    requires forall op :: op in ops ==> op.Ok()
    decreases |ops|
  {
    if ops == [] then st
    else
      var n := |ops| - 1;
      assert ops[n] in ops;
      Step(c, Run(c, st, ops[..n], refs), ops[n], refs)
  }

  /** The references the words are for after a run. */
  function HeldFor(c: Config, st: Lo, ops: seq<Op>, refs: Refs): Refs
    requires forall op :: op in ops ==> op.Ok()
    decreases |ops|
  {
    if ops == [] then refs
    else
      var n := |ops| - 1;
      assert ops[n] in ops;
      StepHeldFor(c, Run(c, st, ops[..n], refs), ops[n], HeldFor(c, st, ops[..n], refs), refs)
  }

  function StepHeldFor(c: Config, st: Lo, op: Op, heldFor: Refs, refs: Refs): Refs {
    if op.TuneOp? then NextHeldFor(c, st, op.tx, op.rate, heldFor, refs) else heldFor
  }

  /** Power-up: no LO set, no TDD table in use, fast lock off, no profile stored. */
  predicate Fresh(st: Lo) {
    && st.rx.lo == 0 && st.tx.lo == 0 && !st.rx.tdd && !st.tx.tdd && st.rx.profile == 0 && st.tx.profile == 0
    && (forall p :: 0 <= p < 8 ==> !st.rx.entries[p].initialised)
    && (forall p :: 0 <= p < 8 ==> !st.tx.entries[p].initialised)
  }

  /** What holds in every reachable state. */
  predicate Invariant(c: Config, st: Lo, heldFor: Refs) { Tuned(c, st, heldFor) && ProfilesOk(st) }

  lemma SameTuningKeepsTuned(c: Config, st: Lo, e: Lo, heldFor: Refs)
    requires Tuned(c, st, heldFor) && SameTuning(st.dev, e.dev)
    requires forall b :: e.Of(b).lo == st.Of(b).lo && e.Of(b).tdd == st.Of(b).tdd
    ensures Tuned(c, e, heldFor)
  {
    forall b, w ensures HoldsWords(st.dev, b, w) <==> HoldsWords(e.dev, b, w) {
      QuietHolds(st.dev, e.dev, b, w);
    }
    assert SideTuned(c, e, false, heldFor.rx) && SideTuned(c, e, true, heldFor.tx) by {
      assert e.Of(false).lo == st.Of(false).lo && e.Of(true).lo == st.Of(true).lo;
    }
  }

  lemma LoadKeeps(c: Config, st: Lo, tx: bool, profile: nat, values: seq<bv8>, heldFor: Refs)
    requires profile < 8 && |values| == FastLock.WORDS && Invariant(c, st, heldFor)
    ensures Invariant(c, Load(st, tx, profile, values), heldFor)
  {
    LoadKeepsProfiles(st, tx, profile, values);
    SameTuningKeepsTuned(c, st, Load(st, tx, profile, values), heldFor);
  }

  lemma RecallKeeps(c: Config, st: Lo, tx: bool, profile: nat, heldFor: Refs)
    requires profile < 8 && Invariant(c, st, heldFor) && Recall(c, st, tx, profile).Ok?
    ensures Invariant(c, Recall(c, st, tx, profile).value, heldFor)
  {
    RecallKeepsProfiles(c, st, tx, profile);
    assert SideOk(st.dev, tx, st.Of(tx).entries) && EntryOk(st.dev, tx, profile, st.Of(tx).entries[profile]);
    RecallLaw(c, st, tx, profile);
    hide Recall;
    SameTuningKeepsTuned(c, st, Recall(c, st, tx, profile).value, heldFor);
  }

  lemma TuneKeeps(c: Config, st: Lo, tx: bool, rate: u32, heldFor: Refs, refs: Refs)
    requires Invariant(c, st, heldFor)
    ensures Invariant(c, SetLo(c, st, tx, rate, refs.Of(tx)), NextHeldFor(c, st, tx, rate, heldFor, refs))
  {
    SetLoKeepsTuned(c, st, tx, rate, heldFor, refs);
    hide SetLo, NextHeldFor;
    var e := SetLo(c, st, tx, rate, refs.Of(tx));
    assert SideOk(e.dev, false, e.rx.entries) by {
      forall p | 0 <= p < 8 ensures EntryOk(e.dev, false, p, e.rx.entries[p]) {
        assert EntryOk(st.dev, false, p, st.rx.entries[p]);
      }
    }
    assert SideOk(e.dev, true, e.tx.entries) by {
      forall p | 0 <= p < 8 ensures EntryOk(e.dev, true, p, e.tx.entries[p]) {
        assert EntryOk(st.dev, true, p, st.tx.entries[p]);
      }
    }
  }

  /** Over every run of tuning, loading, storing and recalling, with any two
      references: the records of the profiles stay right, and each side holds the
      words of its LO, for the reference that HeldFor follows through the run. */
  lemma {:induction false} RunsKeepInvariant(c: Config, st: Lo, ops: seq<Op>, refs: Refs)
    requires Fresh(st) && forall op :: op in ops ==> op.Ok()
    ensures Invariant(c, Run(c, st, ops, refs), HeldFor(c, st, ops, refs))
    decreases |ops|
  {
    if ops != [] {
      var n := |ops| - 1;
      assert ops[n] in ops && ops[n].Ok();
      RunsKeepInvariant(c, st, ops[..n], refs);
      StepKeeps(c, Run(c, st, ops[..n], refs), ops[n], HeldFor(c, st, ops[..n], refs), refs);
      hide Invariant, Step, StepHeldFor;
    }
  }

  lemma StepKeeps(c: Config, st: Lo, op: Op, heldFor: Refs, refs: Refs)
    requires op.Ok() && Invariant(c, st, heldFor)
    ensures Invariant(c, Step(c, st, op, refs), StepHeldFor(c, st, op, heldFor, refs))
  {
    hide SetLo, Recall, Load, NextHeldFor, Invariant, Snapshot;
    match op
    case TuneOp(tx, rate) => TuneKeeps(c, st, tx, rate, heldFor, refs);
    case LoadOp(tx, p, v) => LoadKeeps(c, st, tx, p, v, heldFor);
    case StoreOp(tx, p) => LoadKeeps(c, st, tx, p, Snapshot(st.dev, tx), heldFor);
    case RecallOp(tx, p) =>
      if Recall(c, st, tx, p).Ok? {
        RecallKeeps(c, st, tx, p, heldFor);
      }
  }

  /** After every run a synthesiser with an LO holds that LO's words, and reports it
      within rounding while no profile overrides it, exactly when the words are for
      the reference it runs from. */
  lemma RunsReportTheirLo(c: Config, st: Lo, ops: seq<Op>, refs: Refs, b: bool)
    requires Fresh(st) && forall op :: op in ops ==> op.Ok()
    requires Run(c, st, ops, refs).Of(b).lo != 0
    ensures var e := Run(c, st, ops, refs);
            && (SideTuned(c, e, b, refs.Of(b)) <==> HeldFor(c, st, ops, refs).Of(b) == refs.Of(b))
            && (HeldFor(c, st, ops, refs).Of(b) == refs.Of(b) && e.Of(b).profile == 0 ==>
                  -2 <= Reported(e, b, refs.Of(b)) - e.Of(b).lo <= 1)
  {
    RunsKeepInvariant(c, st, ops, refs);
    var e := Run(c, st, ops, refs);
    TunedForOne(c, e, b, HeldFor(c, st, ops, refs).Of(b), refs.Of(b));
    if HeldFor(c, st, ops, refs).Of(b) == refs.Of(b) && e.Of(b).profile == 0 {
      TunedReportsItsLo(c, e, b, refs.Of(b));
    }
  }

  /** Equal references, or synthesisers that do not share a state machine, never
      leave words for the wrong one. */
  lemma {:induction false} HeldForStays(c: Config, st: Lo, ops: seq<Op>, refs: Refs)
    requires refs.rx == refs.tx || !c.Shared()
    requires forall op :: op in ops ==> op.Ok()
    ensures HeldFor(c, st, ops, refs) == refs
    decreases |ops|
  {
    if ops != [] {
      HeldForStays(c, st, ops[..|ops| - 1], refs);
      hide Run;
    }
  }

  /** Both LOs set to 2.4 GHz, with 80 MHz at the RX and 40 MHz at the TX synthesiser:
      tuning the TX one programs the RX one with the words for 40 MHz, which stand
      for 4.8 GHz there. */
  lemma FixupMissesReference(c: Config, st: Lo)
    requires Fresh(st) && c.Shared()
    ensures var refs := Refs(80000000, 40000000);
            var e := Run(c, st, [TuneOp(false, 1200000000), TuneOp(true, 1200000000)], refs);
            && !SideTuned(c, e, false, refs.rx) && SideTuned(c, e, true, refs.tx)
            && e.rx.lo == 1200000000 && Reported(e, false, refs.rx) == 2400000000
  {
    var refs, ops := Refs(80000000, 40000000), [TuneOp(false, 1200000000), TuneOp(true, 1200000000)];
    var one := SetLo(c, st, false, 1200000000, 80000000);
    var e := SetLo(c, one, true, 1200000000, 40000000);
    TwoTunings(c, st, ops[0], ops[1], refs);
    hide *;
    FirstTuning(c, st, refs);
    SecondTuning(c, one, refs);
    FixedUpCarrier(c, e);
  }

  lemma TwoTunings(c: Config, st: Lo, one: Op, two: Op, refs: Refs)
    requires one.TuneOp? && two.TuneOp?
    ensures Run(c, st, [one, two], refs) ==
              SetLo(c, SetLo(c, st, one.tx, one.rate, refs.Of(one.tx)), two.tx, two.rate, refs.Of(two.tx))
  {
    hide SetLo, Refs.Of;
    assert [one, two][..1] == [one] && [one][..0] == [];
    assert Run(c, st, [one], refs) == Step(c, Run(c, st, [], refs), one, refs);
    assert Run(c, st, [one, two], refs) == Step(c, Run(c, st, [one], refs), two, refs);
  }

  lemma FirstTuning(c: Config, st: Lo, refs: Refs)
    requires Fresh(st) && c.Shared() && refs == Refs(80000000, 40000000)
    ensures var e := SetLo(c, st, false, 1200000000, 80000000);
            && Tuned(c, e, refs) && e.rx.lo == 1200000000 && e.tx.lo == 0
            && !e.rx.tdd && e.rx.profile == 0
  {
    FixupSettles(c, st, false, 1200000000, 80000000);
    SetLoKeepsTuned(c, st, false, 1200000000, refs, refs);
    hide SetLo, HoldsWords, WordsOf;
  }

  lemma SecondTuning(c: Config, st: Lo, refs: Refs)
    requires c.Shared() && refs == Refs(80000000, 40000000) && Tuned(c, st, refs)
    requires st.rx.lo == 1200000000 && st.tx.lo == 0 && !st.rx.tdd && st.rx.profile == 0
    ensures var e := SetLo(c, st, true, 1200000000, 40000000);
            && SideTuned(c, e, false, 40000000) && SideTuned(c, e, true, 40000000) && !SideTuned(c, e, false, 80000000)
            && e.rx.lo == 1200000000 && e.rx.profile == 0
  {
    assert FixupDue(c, st, true, 1200000000) && Valid(c, 1200000000);
    SetLoKeepsTuned(c, st, true, 1200000000, refs, refs);
    OtherKeepsItsWords(c, st, true, 1200000000, refs);
    ProfileStays(c, st, true, 1200000000, 40000000);
    hide SetLo, HoldsWords, WordsOf, Valid;
  }

  /** A side whose fast lock is off keeps it off while the other one is tuned. */
  lemma ProfileStays(c: Config, st: Lo, tx: bool, rate: u32, parent: Ref)
    requires st.Of(!tx).profile == 0
    ensures SetLo(c, st, tx, rate, parent).Of(!tx).profile == 0
  {
    hide Synth.Program, Script, WordsOf, Valid;
    if Valid(c, rate) {
      ValidIsPositive(c, rate);
    }
  }

  lemma FixedUpCarrier(c: Config, e: Lo)
    requires SideTuned(c, e, false, 40000000) && e.rx.lo == 1200000000 && e.rx.profile == 0
    ensures Reported(e, false, 80000000) == 2400000000
  {
    var w := WordsOf(1200000000, 40000000);
    assert Rfpll.Doublings(2400000000) == 2;
    assert w.integer == 240 && w.fract == 0 && w.vcoDiv == 1;
    assert Rfpll.FreqOf(240, 0, 1, 80000000) == 4800000000;
  }
}
