/** Programming one RF synthesiser: VCO table lookup, packing of the frequency
    words into registers, and reading the carrier back. */
module Synth {
  import opened Bytes
  import opened Registers
  import opened Device
  import Rfpll
  import FastLock

  const LUT_SIZE := 53

  /** The VCO_MHz column, shared by all six synthesiser tables. */
  const VCO_MHZ: seq<nat> := [
    12605, 12245, 11906, 11588, 11288, 11007, 10742, 10492, 10258, 10036, 9827, 9631, 9445, 9269,
    9103, 8946, 8797, 8655, 8520, 8392, 8269, 8153, 8041, 7934, 7831, 7733, 7638, 7547, 7459, 7374,
    7291, 7212, 7135, 7061, 6988, 6918, 6850, 6784, 6720, 6658, 6597, 6539, 6482, 6427, 6373, 6321,
    6270, 6222, 6174, 6128, 6083, 6040, 5997]

  /** ad9361_rfvco_tableindex */
  function TableIndex(refClk: nat): nat {
    if refClk < 50000000 then 0 else if refClk <= 70000000 then 1 else 2
  }

  /** The lookup loop of ad9361_rfpll_vco_init on one table column. */
  method VcoIndex(tab: seq<nat>, vco: nat) returns (i: nat)
    requires |tab| == LUT_SIZE
    ensures i == LutFrom(tab, vco / 1000000, 0)
  {
    i := 0;
    var mhz := vco / 1000000;
    while i < LUT_SIZE && tab[i] > mhz
      invariant i <= LUT_SIZE
      invariant LutFrom(tab, mhz, 0) == LutFrom(tab, mhz, i)
    {
      i := i + 1;
    }
  }

  /** The first entry from i on that is not above the frequency; LUT_SIZE if none is. */
  function LutFrom(tab: seq<nat>, mhz: nat, i: nat): (r: nat)
    requires |tab| == LUT_SIZE && i <= LUT_SIZE
    ensures i <= r <= LUT_SIZE && (r < LUT_SIZE ==> tab[r] <= mhz)
    ensures forall h :: i <= h < r ==> tab[h] > mhz
    decreases LUT_SIZE - i
  {
    if i < LUT_SIZE && tab[i] > mhz then LutFrom(tab, mhz, i + 1) else i
  }

  lemma LastEntry()
    ensures |VCO_MHZ| == LUT_SIZE && VCO_MHZ[52] == 5997
  {
  }

  function LutRow(vco: nat): (r: nat)
    ensures r <= LUT_SIZE
  {
    LastEntry();
    LutFrom(VCO_MHZ, vco / 1000000, 0)
  }

  /** For every accepted carrier the lookup stays inside the table, because the
      divider search has left the VCO above 6 GHz. */
  lemma LookupInsideTable(freq: nat, parent: nat, ad9363a: bool)
    requires Rfpll.ValidCarrier(freq, ad9363a) && Rfpll.MIN_REF <= parent <= Rfpll.MAX_REF
    ensures LutRow(Rfpll.WordsFor(freq, parent).vco) < LUT_SIZE
  {
    Rfpll.WordsFitRegisters(freq, parent, ad9363a);
    LastEntry();
    var mhz := Rfpll.WordsFor(freq, parent).vco / 1000000;
    assert VCO_MHZ[52] <= mhz;
  }

  /** The tuning values of a table row; the tables are data and stay abstract. */
  datatype Tuning = Tuning(level: bv8, varactor: bv8, biasRef: bv8, biasTcf: bv8, calOffset: bv8, varactorRef: bv8,
                           cpCurrent: bv8, c2: bv8, c1: bv8, r1: bv8, c3: bv8, r3: bv8)

  /** Synthesiser tables: TDD or FDD kind, reference range, row. */
  type Tables = (bool, nat, nat) -> Tuning

  /** The register writes of ad9361_rfpll_vco_init. */
  function VcoScript(o: nat, t: Tuning): (ps: seq<Put>)
    requires o == 0 || o == TX_OFFSET
    ensures |ps| == 11 && forall p :: p in ps ==> Harmless(p)
  {
    [Plain(VCO_OUTPUT + o, OutputByte(t.level)),
     Put(Field(ALC_VARACTOR + o, 0x0F, 0), t.varactor),
     Plain(VCO_BIAS_1 + o, BiasByte(t.biasRef, t.biasTcf)),
     Plain(FORCE_VCO_TUNE_1 + o, TuneByte(t.calOffset)),
     Plain(VCO_VARACTOR_CTRL_1 + o, Nibble(t.varactorRef)),
     Plain(VCO_CAL_REF + o, 0),
     Plain(VCO_VARACTOR_CTRL_0 + o, 0x70),
     Put(Field(CP_CURRENT + o, 0x3F, 0), t.cpCurrent),
     Plain(LOOP_FILTER_1 + o, Nibbles(t.c2, t.c1)),
     Plain(LOOP_FILTER_2 + o, Nibbles(t.r1, t.c3)),
     Plain(LOOP_FILTER_3 + o, Nibble(t.r3))]
  }

  function VcoInit(d: Device, tx: bool, t: Tuning): (e: Device)
    ensures Quiet(d, e)
  {
    Script(d, VcoScript(Offs(tx), t))
  }

  /** The fields of the VCO and of the loop filter hold the values of a table row. */
  predicate VcoHolds(r: Regs, o: nat, t: Tuning)
    requires o <= TX_OFFSET
  {
    && Extracted(r[VCO_OUTPUT + o], 0x0F, 0) == Nibble(t.level)
    && Extracted(r[ALC_VARACTOR + o], 0x0F, 0) == Nibble(t.varactor)
    && Extracted(r[VCO_BIAS_1 + o], 0x07, 0) == t.biasRef & 0x07
    && Extracted(r[VCO_BIAS_1 + o], 0x18, 3) == t.biasTcf & 0x03
    && Extracted(r[FORCE_VCO_TUNE_1 + o], 0x78, 3) == Nibble(t.calOffset)
    && Extracted(r[VCO_VARACTOR_CTRL_1 + o], 0x0F, 0) == Nibble(t.varactorRef)
    && Extracted(r[VCO_VARACTOR_CTRL_0 + o], 0x70, 4) == 7
  }

  predicate FilterHolds(r: Regs, o: nat, t: Tuning)
    requires o <= TX_OFFSET
  {
    && Extracted(r[CP_CURRENT + o], 0x3F, 0) == t.cpCurrent & 0x3F
    && Extracted(r[LOOP_FILTER_1 + o], 0xF0, 4) == Nibble(t.c2)
    && Extracted(r[LOOP_FILTER_1 + o], 0x0F, 0) == Nibble(t.c1)
    && Extracted(r[LOOP_FILTER_2 + o], 0xF0, 4) == Nibble(t.r1)
    && Extracted(r[LOOP_FILTER_2 + o], 0x0F, 0) == Nibble(t.c3)
    && Extracted(r[LOOP_FILTER_3 + o], 0x0F, 0) == Nibble(t.r3)
  }

  /** What one write of the script leaves in its register. */
  lemma VcoWrite(d: Device, o: nat, t: Tuning, i: nat)
    requires (o == 0 || o == TX_OFFSET) && i < 11
    ensures var p := VcoScript(o, t)[i];
            && p.f.reg < SIZE && p.f.off < 8
            && Script(d, VcoScript(o, t)).regs[p.f.reg] == Merged(d.regs[p.f.reg], p.f.mask, p.f.off, p.val)
  {
    hide Merged, Script, VcoScript;
    var ps := VcoScript(o, t);
    forall j | 0 <= j < 11 && j != i ensures ps[j].f.reg != ps[i].f.reg {
      OtherRegister(o, t, i, j);
    }
    ScriptAt(d, ps, i);
  }

  /** The registers of the script, in order, counted from FORCE_VCO_TUNE_1. */
  const VCO_REGS: seq<nat> := [2, 1, 10, 0, 25, 13, 24, 3, 6, 7, 8]

  lemma OtherRegister(o: nat, t: Tuning, i: nat, j: nat)
    requires (o == 0 || o == TX_OFFSET) && i < 11 && j < 11 && i != j
    ensures VcoScript(o, t)[i].f.reg != VcoScript(o, t)[j].f.reg
  {
    RegisterIs(o, t, i);
    RegisterIs(o, t, j);
    hide VcoScript;
  }

  lemma RegisterIs(o: nat, t: Tuning, i: nat)
    requires (o == 0 || o == TX_OFFSET) && i < 11
    ensures VcoScript(o, t)[i].f.reg == FORCE_VCO_TUNE_1 + VCO_REGS[i] + o
  {
    hide Nibble, Nibbles, OutputByte, TuneByte, BiasByte;
    var ps := VcoScript(o, t);
    assert ps[0].f.reg == VCO_OUTPUT + o && ps[1].f.reg == ALC_VARACTOR + o && ps[2].f.reg == VCO_BIAS_1 + o;
    assert ps[3].f.reg == FORCE_VCO_TUNE_1 + o && ps[4].f.reg == VCO_VARACTOR_CTRL_1 + o;
    assert ps[5].f.reg == VCO_CAL_REF + o;
    assert ps[6].f.reg == VCO_VARACTOR_CTRL_0 + o && ps[7].f.reg == CP_CURRENT + o && ps[8].f.reg == LOOP_FILTER_1 + o;
    assert ps[9].f.reg == LOOP_FILTER_2 + o && ps[10].f.reg == LOOP_FILTER_3 + o;
    hide VcoScript;
  }

  /** After the VCO has been prepared, each of its fields reads back the table. */
  lemma VcoReads(d: Device, o: nat, t: Tuning)
    requires o == 0 || o == TX_OFFSET
    ensures VcoHolds(Script(d, VcoScript(o, t)).regs, o, t)
  {
    hide Script, Merged, Extracted, Nibble, Nibbles, OutputByte, TuneByte, BiasByte;
    var r := d.regs;
    VcoWrite(d, o, t, 0);
    VcoWrite(d, o, t, 1);
    VcoWrite(d, o, t, 2);
    VcoWrite(d, o, t, 3);
    VcoWrite(d, o, t, 4);
    VcoWrite(d, o, t, 6);
    NibbleLaw(r[VCO_OUTPUT + o], t.level);
    NibbleLaw(r[ALC_VARACTOR + o], t.varactor);
    BiasLaw(r[VCO_BIAS_1 + o], t.biasRef, t.biasTcf);
    NibbleLaw(r[FORCE_VCO_TUNE_1 + o], t.calOffset);
    NibbleLaw(r[VCO_VARACTOR_CTRL_1 + o], t.varactorRef);
    SevenLaw(r[VCO_VARACTOR_CTRL_0 + o]);
  }

  lemma FilterReads(d: Device, o: nat, t: Tuning)
    requires o == 0 || o == TX_OFFSET
    ensures FilterHolds(Script(d, VcoScript(o, t)).regs, o, t)
  {
    hide Script, Merged, Extracted, Nibble, Nibbles, OutputByte, TuneByte, BiasByte;
    var r := d.regs;
    VcoWrite(d, o, t, 7);
    VcoWrite(d, o, t, 8);
    VcoWrite(d, o, t, 9);
    VcoWrite(d, o, t, 10);
    MergedOwnField(r[CP_CURRENT + o], 0x3F, 0, t.cpCurrent);
    NibblesLaw(r[LOOP_FILTER_1 + o], t.c2, t.c1);
    NibblesLaw(r[LOOP_FILTER_2 + o], t.r1, t.c3);
    NibbleLaw(r[LOOP_FILTER_3 + o], t.r3);
  }

  lemma VcoInitReads(d: Device, tx: bool, t: Tuning)
    ensures VcoHolds(VcoInit(d, tx, t).regs, Offs(tx), t) && FilterHolds(VcoInit(d, tx, t).regs, Offs(tx), t)
  {
    VcoReads(d, Offs(tx), t);
    FilterReads(d, Offs(tx), t);
    hide Script, VcoScript;
  }

  // ---- frequency words ----

  /** The five bytes written from FRACT_BYTE_2 downwards; the upper bits of
      INTEGER_BYTE_1 are kept. */
  function Packed(integer: nat, fract: nat, integerByte1: bv8): (b: seq<bv8>)
    ensures |b| == 5
  {
    [ClearTop(ToByte(fract / 0x1_0000)), ToByte(fract / 0x100), ToByte(fract),
     KeepUpper(ToByte(integer / 0x100), integerByte1), ToByte(integer)]
  }

  function IntegerOf(b1: bv8, b0: bv8): nat { Low3(b1) * 0x100 + FromByte(b0) }

  function FractOf(b2: bv8, b1: bv8, b0: bv8): nat {
    Low7(b2) * 0x1_0000 + FromByte(b1) * 0x100 + FromByte(b0)
  }

  lemma IntegerPack(integer: nat, kept: bv8)
    requires integer < 0x800
    ensures IntegerOf(KeepUpper(ToByte(integer / 0x100), kept), ToByte(integer)) == integer
  {
    hide ToByte, FromByte, Low3, KeepUpper;
    ByteRoundTrip(integer);
    ByteRoundTrip(integer / 0x100);
    KeepUpperLaw(ToByte(integer / 0x100), kept);
  }

  lemma FractPack(fract: nat)
    requires fract < 0x80_0000
    ensures FractOf(ClearTop(ToByte(fract / 0x1_0000)), ToByte(fract / 0x100), ToByte(fract)) == fract
  {
    hide ToByte, FromByte, Low7, ClearTop;
    ByteRoundTrip(fract);
    ByteRoundTrip(fract / 0x100);
    ByteRoundTrip(fract / 0x1_0000);
    ClearTopLaw(ToByte(fract / 0x1_0000));
    ThreeDigits(fract);
  }

  lemma ThreeDigits(x: nat)
    requires x < 0x80_0000
    ensures x / 0x1_0000 % 256 % 128 * 0x1_0000 + x / 0x100 % 256 * 0x100 + x % 256 == x
  {
  }

  /** Packing loses nothing and keeps the neighbouring bits of INTEGER_BYTE_1. */
  lemma PackRoundTrip(integer: nat, fract: nat, integerByte1: bv8)
    requires integer < 0x800 && fract < 0x80_0000
    ensures var b := Packed(integer, fract, integerByte1);
            && IntegerOf(b[3], b[4]) == integer
            && FractOf(b[0], b[1], b[2]) == fract
            && b[3] & 0xF8 == integerByte1 & 0xF8 && b[0] & 0x80 == 0
  {
    hide ToByte, FromByte, Low3, Low7, KeepUpper, ClearTop, IntegerOf, FractOf;
    IntegerPack(integer, integerByte1);
    KeepUpperLaw(ToByte(integer / 0x100), integerByte1);
    FractPack(fract);
    ClearTopLaw(ToByte(fract / 0x1_0000));
  }

  /** What the registers of a synthesiser say: integer, fraction and divider. */
  function RegInteger(d: Device, tx: bool): nat {
    IntegerOf(d.regs[INTEGER_BYTE_1 + Offs(tx)], d.regs[INTEGER_BYTE_0 + Offs(tx)])
  }

  function RegFract(d: Device, tx: bool): nat {
    var o := Offs(tx);
    FractOf(d.regs[FRACT_BYTE_2 + o], d.regs[FRACT_BYTE_1 + o], d.regs[FRACT_BYTE_0 + o])
  }

  function RegDivider(d: Device, tx: bool): nat {
    FromByte(ReadF(d.regs, DividerField(tx)))
  }

  /** Both dividers share a register, the TX one in its upper half. */
  lemma DividerLayout(d: Device, tx: bool)
    ensures var b := FromByte(d.regs[RFPLL_DIVIDERS]); RegDivider(d, tx) == if tx then b / 16 else b % 16
  {
    HalvesOfByte(d.regs[RFPLL_DIVIDERS]);
    hide Extracted;
  }

  lemma HalvesOfByte(b: bv8)
    ensures Extracted(b, 0xF0, 4) == b >> 4 && Extracted(b, 0x0F, 0) == b & 0x0F
    ensures FromByte(b >> 4) == FromByte(b) / 16 && FromByte(b & 0x0F) == FromByte(b) % 16
  {
    UpperHalf(b);
    LowerHalf(b);
    hide FromByte;
  }

  lemma UpperHalf(b: bv8)
    ensures FromByte(b >> 4) == FromByte(b) / 16
  {
  }

  lemma LowerHalf(b: bv8)
    ensures FromByte(b & 0x0F) == FromByte(b) % 16
  {
  }

  function RegFreq(d: Device, tx: bool, parent: nat): nat {
    Rfpll.FreqOf(RegInteger(d, tx), RegFract(d, tx), RegDivider(d, tx), parent)
  }

  /** What a fast-lock profile says. */
  function ProfileFreq(d: Device, tx: bool, profile: nat, parent: nat): nat
    requires profile < 8
  {
    var integer := IntegerOf(FastLock.WordAt(d, tx, profile, 1), FastLock.WordAt(d, tx, profile, 0));
    var fract := FractOf(FastLock.WordAt(d, tx, profile, 4), FastLock.WordAt(d, tx, profile, 3),
                         FastLock.WordAt(d, tx, profile, 2));
    Rfpll.FreqOf(integer, fract, Low4(FastLock.WordAt(d, tx, profile, 12)), parent)
  }

  /** The body of the do/while in ad9361_rfpll_int_set_rate up to the lock wait. */
  function Program(d: Device, tx: bool, integer: nat, fract: nat, vcoDiv: nat, t: Tuning): Device {
    PutWords(VcoInit(d, tx, t), tx, integer, fract, vcoDiv)
  }

  function PutWords(d: Device, tx: bool, integer: nat, fract: nat, vcoDiv: nat): Device {
    var buf := Packed(integer, fract, d.regs[INTEGER_BYTE_1 + Offs(tx)]);
    WriteField(WriteMany(d, FRACT_BYTE_2 + Offs(tx), buf), DividerField(tx), ToByte(vcoDiv))
  }

  lemma ProgramBytes(d: Device, tx: bool, buf: seq<bv8>)
    requires |buf| == 5
    ensures var e, top := WriteMany(d, FRACT_BYTE_2 + Offs(tx), buf), FRACT_BYTE_2 + Offs(tx);
            && e == d.(regs := e.regs)
            && forall a :: 0 <= a < SIZE ==> e.regs[a] == if top - 5 < a <= top then buf[top - a] else d.regs[a]
  {
    var top := FRACT_BYTE_2 + Offs(tx);
    WriteManyStores(d, top, buf);
    hide WriteMany, WriteM;
    var e := WriteMany(d, top, buf);
    forall a | 0 <= a < SIZE ensures e.regs[a] == if top - 5 < a <= top then buf[top - a] else d.regs[a] {
      WriteMLaw(d.regs, top, buf, a);
    }
  }

  lemma DividerRoundTrip(r: Regs, tx: bool, v: nat)
    requires v < 16
    ensures FromByte(ReadF(WriteF(r, DividerField(tx), ToByte(v)), DividerField(tx))) == v
    ensures ReadF(WriteF(r, DividerField(tx), ToByte(v)), DividerField(!tx)) == ReadF(r, DividerField(!tx))
  {
    WriteThenRead(r, DividerField(tx), ToByte(v));
    WriteElsewhere(r, DividerField(tx), ToByte(v), DividerField(!tx));
    LowNibble(v);
    assert DividerField(tx).mask >> DividerField(tx).off == 0x0F;
    hide ToByte, ReadF, WriteF;
  }

  lemma BytesLaw(d: Device, tx: bool, buf: seq<bv8>)
    requires |buf| == 5
    ensures var e := WriteMany(d, FRACT_BYTE_2 + Offs(tx), buf);
            && RegInteger(e, tx) == IntegerOf(buf[3], buf[4]) && RegFract(e, tx) == FractOf(buf[0], buf[1], buf[2])
            && e.regs[INTEGER_BYTE_1 + Offs(tx)] == buf[3] && e.regs[FRACT_BYTE_2 + Offs(tx)] == buf[0]
            && RegInteger(e, !tx) == RegInteger(d, !tx) && RegFract(e, !tx) == RegFract(d, !tx)
            && e.regs[RFPLL_DIVIDERS] == d.regs[RFPLL_DIVIDERS]
            && SameClocks(d, e) && e.rxFast == d.rxFast && e.txFast == d.txFast
  {
    hide WriteMany, IntegerOf, FractOf;
    ProgramBytes(d, tx, buf);
  }

  lemma DividerLaw(d: Device, tx: bool, v: nat)
    requires v < 16
    ensures var e := WriteField(d, DividerField(tx), ToByte(v));
            && RegDivider(e, tx) == v && RegDivider(e, !tx) == RegDivider(d, !tx)
            && RegInteger(e, tx) == RegInteger(d, tx) && RegFract(e, tx) == RegFract(d, tx)
            && RegInteger(e, !tx) == RegInteger(d, !tx) && RegFract(e, !tx) == RegFract(d, !tx)
            && e.regs[INTEGER_BYTE_1 + Offs(tx)] == d.regs[INTEGER_BYTE_1 + Offs(tx)]
            && e.regs[FRACT_BYTE_2 + Offs(tx)] == d.regs[FRACT_BYTE_2 + Offs(tx)]
            && SameClocks(d, e) && e.rxFast == d.rxFast && e.txFast == d.txFast
  {
    hide ToByte, IntegerOf, FractOf, Merged, Extracted, FromByte;
    DividerRoundTrip(d.regs, tx, v);
  }

  lemma QuietKeepsWords(d: Device, e: Device, tx: bool)
    requires Quiet(d, e)
    ensures RegInteger(e, tx) == RegInteger(d, tx) && RegFract(e, tx) == RegFract(d, tx)
    ensures RegDivider(e, tx) == RegDivider(d, tx)
    ensures e.regs[INTEGER_BYTE_1 + Offs(tx)] == d.regs[INTEGER_BYTE_1 + Offs(tx)]
  {
  }

  /** The words a synthesiser holds. */
  predicate Holds(d: Device, tx: bool, integer: nat, fract: nat, vcoDiv: nat) {
    RegInteger(d, tx) == integer && RegFract(d, tx) == fract && RegDivider(d, tx) == vcoDiv
  }

  /** What programming a synthesiser leaves behind. */
  predicate Programmed(d: Device, e: Device, tx: bool, integer: nat, fract: nat, vcoDiv: nat) {
    && Holds(e, tx, integer, fract, vcoDiv)
    && Holds(e, !tx, RegInteger(d, !tx), RegFract(d, !tx), RegDivider(d, !tx))
    && e.regs[INTEGER_BYTE_1 + Offs(tx)] & 0xF8 == d.regs[INTEGER_BYTE_1 + Offs(tx)] & 0xF8
    && e.regs[FRACT_BYTE_2 + Offs(tx)] & 0x80 == 0
    && SameClocks(d, e) && e.rxFast == d.rxFast && e.txFast == d.txFast
  }

  lemma PutWordsLaw(d: Device, tx: bool, integer: nat, fract: nat, vcoDiv: nat)
    requires integer < 0x800 && fract < 0x80_0000 && vcoDiv < 16
    ensures Programmed(d, PutWords(d, tx, integer, fract, vcoDiv), tx, integer, fract, vcoDiv)
  {
    hide Packed;
    var buf := Packed(integer, fract, d.regs[INTEGER_BYTE_1 + Offs(tx)]);
    PackRoundTrip(integer, fract, d.regs[INTEGER_BYTE_1 + Offs(tx)]);
    BytesLaw(d, tx, buf);
    hide WriteMany, WriteField, IntegerOf, FractOf, RegDivider, RegInteger, RegFract, ToByte;
    DividerLaw(WriteMany(d, FRACT_BYTE_2 + Offs(tx), buf), tx, vcoDiv);
  }

  /** Programming loses nothing: the registers read back the three words. The
      other synthesiser keeps its tuning, the upper bits of INTEGER_BYTE_1 stay
      and that of FRACT_BYTE_2 is cleared, and no clock register or profile changes. */
  lemma ProgramLaw(d: Device, tx: bool, integer: nat, fract: nat, vcoDiv: nat, t: Tuning)
    requires integer < 0x800 && fract < 0x80_0000 && vcoDiv < 16
    ensures Programmed(d, Program(d, tx, integer, fract, vcoDiv, t), tx, integer, fract, vcoDiv)
  {
    var d1 := VcoInit(d, tx, t);
    QuietKeepsWords(d, d1, tx);
    QuietKeepsWords(d, d1, !tx);
    PutWordsLaw(d1, tx, integer, fract, vcoDiv);
  }
}
