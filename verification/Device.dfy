/** The device behind the SPI port: its registers and the two fast-lock
    profile memories, which are programmed through three registers each. */
module Device {
  import opened Bytes
  import opened Registers

  // 8 profiles of 16 words, addressed by profile and word.
  type FastMem = m: seq<bv8> | |m| == 128 witness seq(128, _ => 0)

  datatype Device = Device(regs: Regs, rxFast: FastMem, txFast: FastMem)
  {
    function Fast(tx: bool): FastMem { if tx then txFast else rxFast }

    function WithFast(tx: bool, m: FastMem): Device {
      if tx then this.(txFast := m) else this.(rxFast := m)
    }
  }

  // Receiver register addresses; the transmitter's lie TX_OFFSET higher.
  const PFD_CONFIG := 0x230
  const INTEGER_BYTE_0 := 0x231
  const INTEGER_BYTE_1 := 0x232
  const FRACT_BYTE_0 := 0x233
  const FRACT_BYTE_1 := 0x234
  const FRACT_BYTE_2 := 0x235
  const FORCE_ALC := 0x236
  const FORCE_VCO_TUNE_0 := 0x237
  const FORCE_VCO_TUNE_1 := 0x238
  const ALC_VARACTOR := 0x239
  const VCO_OUTPUT := 0x23A
  const CP_CURRENT := 0x23B
  const LOOP_FILTER_1 := 0x23E
  const LOOP_FILTER_2 := 0x23F
  const LOOP_FILTER_3 := 0x240
  const VCO_BIAS_1 := 0x242
  const VCO_CAL_REF := 0x245
  const VCO_VARACTOR_CTRL_0 := 0x250
  const VCO_VARACTOR_CTRL_1 := 0x251
  const FAST_SETUP := 0x25A
  const FAST_INIT_DELAY := 0x25B
  const FAST_ADDR := 0x25C
  const FAST_DATA := 0x25D
  const FAST_READ := 0x25E
  const FAST_CTRL := 0x25F
  const RFPLL_DIVIDERS := 0x005
  const ENSM_CONFIG_2 := 0x015
  const TX_OFFSET := 0x40

  function Offs(tx: bool): nat { if tx then TX_OFFSET else 0 }

  function DividerField(tx: bool): Field {
    if tx then Field(RFPLL_DIVIDERS, 0xF0, 4) else Field(RFPLL_DIVIDERS, 0x0F, 0)
  }

  function Addr(b: bv8): (a: nat)
    ensures a < 128
  {
    Low7(b)
  }

  /** A register write. Setting the WRITE bit of a program control register
      commits the staged data to the staged address. */
  function Write(d: Device, reg: nat, v: bv8): Device
    requires reg < SIZE
  {
    var d1 := d.(regs := d.regs[reg := v]);
    if v & 0x02 != 0 && reg == FAST_CTRL then Commit(d1, false)
    else if v & 0x02 != 0 && reg == FAST_CTRL + TX_OFFSET then Commit(d1, true)
    else d1
  }

  function Commit(d: Device, tx: bool): Device {
    d.WithFast(tx, d.Fast(tx)[Addr(d.regs[FAST_ADDR + Offs(tx)]) := d.regs[FAST_DATA + Offs(tx)]])
  }

  function Read(d: Device, reg: nat): bv8
    requires reg < SIZE
  {
    if reg == FAST_READ then d.rxFast[Addr(d.regs[FAST_ADDR])]
    else if reg == FAST_READ + TX_OFFSET then d.txFast[Addr(d.regs[FAST_ADDR + TX_OFFSET])]
    else d.regs[reg]
  }

  /** A multi-byte write, counting down from reg. */
  function WriteMany(d: Device, reg: nat, buf: seq<bv8>): Device
    requires reg < SIZE && |buf| <= reg
    decreases |buf|
  {
    if buf == [] then d else WriteMany(Write(d, reg, buf[0]), reg - 1, buf[1..])
  }

  function WriteField(d: Device, f: Field, v: bv8): Device
    requires f.reg < SIZE && f.off < 8 && f.reg != FAST_CTRL && f.reg != FAST_CTRL + TX_OFFSET
  {
    d.(regs := WriteF(d.regs, f, v))
  }

  /** Away from the program control registers a multi-byte write just stores. */
  lemma {:induction false} WriteManyStores(d: Device, reg: nat, buf: seq<bv8>)
    requires reg < SIZE && |buf| <= reg
    requires reg < FAST_CTRL || reg - |buf| >= FAST_CTRL
    requires reg < FAST_CTRL + TX_OFFSET || reg - |buf| >= FAST_CTRL + TX_OFFSET
    ensures WriteMany(d, reg, buf) == d.(regs := WriteM(d.regs, reg, buf))
    decreases |buf|
  {
    if buf != [] {
      WriteManyStores(Write(d, reg, buf[0]), reg - 1, buf[1..]);
    }
  }

  // ---- registers that hold the tuning of the two synthesisers ----

  predicate IsTuning(a: nat) {
    INTEGER_BYTE_0 <= a <= FRACT_BYTE_2 || INTEGER_BYTE_0 + TX_OFFSET <= a <= FRACT_BYTE_2 + TX_OFFSET
      || a == RFPLL_DIVIDERS
  }

  predicate SameTuning(d: Device, e: Device) {
    forall a :: 0 <= a < SIZE && IsTuning(a) ==> d.regs[a] == e.regs[a]
  }

  /** Registers of the reference dividers, the BBPLL and the baseband chain. */
  predicate IsClock(a: nat) {
    a == 0x002 || a == 0x003 || a == 0x00A || 0x03F <= a <= 0x04E || a == 0x2AB || a == 0x2AC
  }

  predicate SameClocks(d: Device, e: Device) {
    forall a :: 0 <= a < SIZE && IsClock(a) ==> d.regs[a] == e.regs[a]
  }

  /** A write that touches neither tuning nor clocks nor profiles. */
  predicate Quiet(d: Device, e: Device) {
    SameTuning(d, e) && SameClocks(d, e) && e.rxFast == d.rxFast && e.txFast == d.txFast
  }

  predicate IsQuiet(reg: nat) {
    reg < SIZE && !IsTuning(reg) && !IsClock(reg) && reg != FAST_CTRL && reg != FAST_CTRL + TX_OFFSET
  }

  /** One step of a straight-line register script: a field write, or with the
      full mask a plain write. */
  datatype Put = Put(f: Field, val: bv8)

  function Plain(reg: nat, val: bv8): Put { Put(Field(reg, 0xFF, 0), val) }

  predicate Harmless(p: Put) { p.f.reg < SIZE && p.f.off < 8 && IsQuiet(p.f.reg) }

  /** A script of writes to registers outside tuning, clocks and profiles. */
  function Script(d: Device, ps: seq<Put>): (e: Device)
    requires forall p :: p in ps ==> Harmless(p)
    ensures Quiet(d, e)
    decreases |ps|
  {
    if ps == [] then d
    else
      assert ps[0] in ps && Harmless(ps[0]);
      Script(WriteField(d, ps[0].f, ps[0].val), ps[1..])
  }
  /** A register that a script writes once holds what was merged into it. */
  lemma {:induction false} ScriptAt(d: Device, ps: seq<Put>, i: nat)
    requires (forall p :: p in ps ==> Harmless(p)) && i < |ps|
    requires forall j :: 0 <= j < |ps| && j != i ==> ps[j].f.reg != ps[i].f.reg
    ensures ps[i] in ps && Harmless(ps[i])
    ensures Script(d, ps).regs[ps[i].f.reg] == Merged(d.regs[ps[i].f.reg], ps[i].f.mask, ps[i].f.off, ps[i].val)
    decreases |ps|
  {
    hide Merged;
    assert ps[i] in ps && Harmless(ps[i]) && ps[0] in ps && Harmless(ps[0]);
    if i == 0 {
      ScriptElsewhere(WriteField(d, ps[0].f, ps[0].val), ps[1..], ps[0].f.reg);
    } else {
      ScriptAt(WriteField(d, ps[0].f, ps[0].val), ps[1..], i - 1);
    }
  }

  lemma {:induction false} ScriptElsewhere(d: Device, ps: seq<Put>, a: nat)
    requires (forall p :: p in ps ==> Harmless(p)) && a < SIZE
    requires forall j :: 0 <= j < |ps| ==> ps[j].f.reg != a
    ensures Script(d, ps).regs[a] == d.regs[a]
    decreases |ps|
  {
    hide Merged;
    if ps != [] {
      assert ps[0] in ps && Harmless(ps[0]);
      ScriptElsewhere(WriteField(d, ps[0].f, ps[0].val), ps[1..], a);
    }
  }
}
