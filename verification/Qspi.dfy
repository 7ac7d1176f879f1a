/** The boot loader's QSPI reader: one or two serial flash dies behind 24-bit
    addresses and bank registers, read as one array of bytes. */
module Qspi {
  import opened CTypes
  import opened PageBits

  const BANK := 0x100_0000     // FLASH_SIZE_16MB
  const DATA_SIZE := 4096
  const DATA_START := 5        // command, address and dummy byte come first

  datatype Mode = Single | DualStack | DualParallel

  /** The makers whose bank register is written; Macronix parts behave as Micron ones. */
  datatype Maker = Micron | Spansion

  /** How a transfer to the flash ends; the last case is a register read that
      delivers some other byte than the register holds. */
  datatype Answer = Done | Failed | Misread(byte: nat)

  /** The flash behind the controller. Both dies of a pair have the same size, a
      whole number of banks; Micron, Spansion and Macronix make 1 to 8 of them. */
  datatype Flash = Flash(mode: Mode, dieBanks: nat, lower: seq<bv8>, upper: seq<bv8>)
  {
    ghost predicate Valid() {
      && 1 <= dieBanks <= 8 && |lower| == DieSize()
      && |upper| == (if mode.Single? then 0 else DieSize())
    }

    function DieSize(): nat { dieBanks * BANK }

    function Size(): nat { if mode.Single? then DieSize() else 2 * DieSize() }

    /** Byte i of the flash as its users address it: the dies one after the other,
        or interleaved byte by byte. */
    function ByteAt(i: nat): bv8
      requires Valid() && i < Size()
    {
      match mode
      case Single => lower[i]
      case DualStack => if i < DieSize() then lower[i] else upper[i - DieSize()]
      case DualParallel => if i % 2 == 0 then lower[i / 2] else upper[i / 2]
    }

    /** Bytes [a, b). */
    function Bytes(a: nat, b: nat): (s: seq<bv8>)
      requires Valid() && a <= b <= Size()
      ensures |s| == b - a && forall k :: 0 <= k < b - a ==> s[k] == ByteAt(a + k)
    {
      seq(b - a, k requires 0 <= k < b - a => ByteAt(a + k))
    }

    /** The flash position a transfer really starts from. */
    function Origin(source: nat): nat { if mode.DualParallel? then source / 2 * 2 else source }

    /** The bank the lower die is left at: not bank 0 only when a stack of dies with
        several banks is read across the middle. */
    function LeftBank(source: nat, length: nat): (bank: nat)
      requires Valid()
      ensures bank != 0 <==> mode.DualStack? && dieBanks > 1 && source < DieSize() < source + length
    {
      if mode.DualStack? && source < DieSize() < source + length then dieBanks - 1 else 0
    }
  }

  /** When two dies are read in parallel, transfers from odd addresses go wrong: the
      data are right for every content of the flash exactly when the address is even. */
  lemma ParallelNeedsEvenSource(dieBanks: nat, source: nat, n: nat)
    requires 1 <= dieBanks <= 8 && 0 < n && source + n <= 2 * (dieBanks * BANK)
    ensures (forall f: Flash :: f.Valid() && f.mode.DualParallel? && f.dieBanks == dieBanks ==>
                                  f.Bytes(f.Origin(source), f.Origin(source) + n) == f.Bytes(source, source + n))
            <==> source % 2 == 0
  {
    if source % 2 == 1 {
      var f := Flash(DualParallel, dieBanks, seq(dieBanks * BANK, _ => 0), seq(dieBanks * BANK, _ => 1));
      assert f.Valid();
      assert f.Bytes(source, source + n)[0] == 1 && f.Bytes(f.Origin(source), f.Origin(source) + n)[0] == 0;
    }
  }

  /** What a die puts on the bus for a 24-bit address in the selected bank; the
      address counter wraps inside the bank, and there is nothing past the end. */
  function DieByte(die: seq<bv8>, bank: nat, address: nat): bv8 {
    var i := bank * BANK + address % BANK;
    if i < |die| then die[i] else 0xFF
  }

  function Masked(address: nat): nat { address / BANK % 16 * BANK }

  /** The part of a read of n addresses that stays inside the bank. */
  function Cut(address: nat, n: nat): int {
    if Masked(address) != Masked(address + n) then Masked(address) + BANK - address else n
  }

  predicate Crosses(address: nat, n: nat) { Masked(address) != Masked(address + n) }

  lemma CutLaw(address: nat, n: nat)
    requires address < 8 * BANK && n <= DATA_SIZE
    ensures 0 <= Cut(address, n) <= n && (n > 0 ==> Cut(address, n) > 0)
    ensures Crosses(address, n) ==> Cut(address, n) > 0 && (address + Cut(address, n)) % BANK == 0
    ensures !Crosses(address, n) ==> (address + n) / BANK == address / BANK
    ensures address % BANK + Cut(address, n) <= BANK
    ensures Cut(address, n) > 0 ==> (address + Cut(address, n) - 1) / BANK == address / BANK
  {
  }

  lemma UncutLaw(address: nat, n: nat)
    ensures !Crosses(address, n) ==> Cut(address, n) == n
  {
  }

  /** The bank register of the die being read, on the way from `start` to `address`:
      the bank of the last byte read, or a pending switch. */
  ghost predicate Tracks(start: nat, address: nat, bank: nat, switching: bool) {
    && start <= address
    && (address == start ==> bank == 0 && switching)
    && (address > start ==> bank == (address - 1) / BANK)
    && (!switching ==> bank == address / BANK)
  }

  function Selected(address: nat, bank: nat, switching: bool): nat {
    if address >= BANK && switching then address / BANK else bank
  }

  function StillSwitching(address: nat, switching: bool): bool { switching && address < BANK }

  lemma TracksTurn(start: nat, address: nat, bank: nat, switching: bool, n: nat)
    requires Tracks(start, address, bank, switching) && address < 8 * BANK && 0 < n <= DATA_SIZE
    ensures Selected(address, bank, switching) == address / BANK
    ensures Tracks(start, address + Cut(address, n), address / BANK,
                   StillSwitching(address, switching) || Crosses(address, n))
  {
    CutLaw(address, n);
  }

  function RoundUp(n: nat): (r: nat)
    ensures n <= r < n + 4 && r % 4 == 0
  {
    (n + 3) / 4 * 4
  }

  /** A chunk of a transfer: never empty, never more than the read buffer holds,
      inside one bank, and with that bank selected on the dies it is read from. */
  datatype Chunk = Chunk(address: nat, span: nat, length: nat, bank: nat)
  {
    predicate Ok() {
      && 0 < length <= DATA_SIZE && 0 < span
      && address % BANK + span <= BANK && bank == address / BANK
    }
  }

  predicate AllOk(chunks: seq<Chunk>) { forall c :: c in chunks ==> c.Ok() }

  lemma NoChunks()
    ensures AllOk([])
  {
  }

  lemma OneMore(chunks: seq<Chunk>, c: Chunk)
    requires AllOk(chunks) && c.Ok()
    ensures AllOk(chunks + [c])
  {
  }

  class Reader {
    const flash: Flash
    const maker: Maker
    const linear: bool
    const answers: nat -> Answer
    const readBuffer: array<bv8>
    var steps: nat
    var lqspiCr: bv32
    var lowerBank: nat
    var upperBank: nat

    constructor (flash: Flash, maker: Maker, linear: bool, answers: nat -> Answer, lqspiCr: bv32)
      ensures this.flash == flash && this.maker == maker && this.linear == linear
      ensures this.answers == answers && this.lqspiCr == lqspiCr
      ensures lowerBank == upperBank == 0 && readBuffer.Length == DATA_START + DATA_SIZE && fresh(readBuffer)
    {
      this.flash, this.maker, this.linear, this.answers, this.lqspiCr := flash, maker, linear, answers, lqspiCr;
      steps := 0;
      lowerBank, upperBank := 0, 0;
      readBuffer := new bv8[DATA_START + DATA_SIZE];
    }

    ghost predicate Valid() { flash.Valid() && readBuffer.Length == DATA_START + DATA_SIZE }

    predicate OnUpper()
      reads this
    {
      Upper(lqspiCr)
    }

    /** Both dies at bank 0, the lower one selected. */
    predicate Clean()
      reads this
    {
      lowerBank == 0 && upperBank == 0 && !OnUpper()
    }

    /** The bank register of the die a transfer goes to. */
    function CurrentBank(): nat
      reads this
    {
      if flash.mode.DualStack? && OnUpper() then upperBank else lowerBank
    }

    /** The transfers number i to j went well. */
    predicate AllDone(i: nat, j: nat) { forall k :: i <= k < j ==> answers(k).Done? }

    lemma PartDone(i: nat, j: nat, k: nat)
      requires i <= j && AllDone(i, k)
      ensures AllDone(j, k)
    {
    }

    method Transfer() returns (a: Answer)
      modifies this`steps
      ensures a == answers(old(steps)) && steps == old(steps) + 1
    {
      a := answers(steps);
      steps := steps + 1;
    }

    /** The bank registers once a bank has been written: those of the selected die, or
        of both in parallel. */
    function Banks(bank: nat, lower: nat, upper: nat): (nat, nat)
      reads this
    {
      match flash.mode
      case Single => (bank, upper)
      case DualParallel => (bank, bank)
      case DualStack => if OnUpper() then (lower, bank) else (bank, upper)
    }

    /** SendBankSelect: the register is written and read back. It only fails when a
        transfer does, and then may have written the register all the same. */
    method SendBankSelect(bank: nat) returns (ok: bool)
      modifies this`steps, this`lowerBank, this`upperBank
      ensures old(steps) <= steps && (AllDone(old(steps), steps) ==> ok)
      ensures ok ==> CurrentBank() == bank && (flash.mode.DualParallel? ==> upperBank == bank)
      ensures || (lowerBank, upperBank) == Banks(bank, old(lowerBank), old(upperBank))
              || (!ok && lowerBank == old(lowerBank) && upperBank == old(upperBank))
    {
      if maker.Micron? {
        var enabled := Transfer();
        if enabled.Failed? {
          return false;
        }
      }
      var written := Transfer();
      if written.Failed? {
        return false;
      }
      if !flash.mode.DualStack? || !OnUpper() {
        lowerBank := bank;
      }
      if flash.mode.DualParallel? || (flash.mode.DualStack? && OnUpper()) {
        upperBank := bank;
      }
      var read := Transfer();
      if read.Failed? {
        return false;
      }
      ok := (if read.Misread? then read.byte else CurrentBank()) == bank;
    }

    /** The j-th byte the selected die or dies deliver from an address on. */
    function BusByte(address: nat, j: nat): bv8
      reads this
    {
      match flash.mode
      case Single => DieByte(flash.lower, lowerBank, address + j)
      case DualStack =>
        if OnUpper() then DieByte(flash.upper, upperBank, address + j)
        else DieByte(flash.lower, lowerBank, address + j)
      case DualParallel =>
        if j % 2 == 0 then DieByte(flash.lower, lowerBank, address + j / 2)
        else DieByte(flash.upper, upperBank, address + j / 2)
    }

    /** FlashRead: the data arrive behind the command bytes in the read buffer. */
    method FlashRead(address: nat, byteCount: nat)
      requires Valid() && byteCount <= DATA_SIZE
      modifies readBuffer
      ensures forall j :: 0 <= j < byteCount ==> readBuffer[DATA_START + j] == BusByte(address, j)
      ensures forall k :: 0 <= k < DATA_START || DATA_START + byteCount <= k < readBuffer.Length ==>
                readBuffer[k] == old(readBuffer[k])
    {
      forall j | 0 <= j < byteCount {
        readBuffer[DATA_START + j] := BusByte(address, j);
      }
    }

    /** Which address of the current die stands for flash position pos, and what
        the other die is left with. */
    ghost predicate Maps(source: nat, pos: nat, address: nat)
      reads this
    {
      match flash.mode
      case Single => !OnUpper() && upperBank == 0 && address == pos
      case DualParallel => !OnUpper() && upperBank == lowerBank && 2 * address == pos
      case DualStack =>
        if OnUpper() then
          address == pos - flash.DieSize() && lowerBank == if source < flash.DieSize() then flash.dieBanks - 1 else 0
        else address == pos && upperBank == 0
    }

    /** The first address of a transfer on the current die. */
    ghost function StartOf(source: nat): nat
      reads this
    {
      match flash.mode
      case Single => source
      case DualParallel => source / 2
      case DualStack =>
        if !OnUpper() then source else if source < flash.DieSize() then 0 else source - flash.DieSize()
    }

    /** Where a transfer from `source` stands, with `remaining` bytes to go from
        flash position pos on. */
    ghost predicate Standing(source: nat, pos: nat, remaining: nat, address: nat, switching: bool)
      reads this
    {
      && (flash.mode.DualParallel? && remaining == 0 ==> !OnUpper() && upperBank == lowerBank)
      && (!flash.mode.DualParallel? || remaining > 0 ==>
            Maps(source, pos, address) && Tracks(StartOf(source), address, CurrentBank(), switching))
      && (flash.mode.DualStack? ==>
            if OnUpper() then pos > flash.DieSize() else pos <= flash.DieSize() || pos == source)
    }

    /** Dual stack only: the upper die is selected once its addresses are reached. */
    method SelectDie(address0: nat, ghost source: nat, ghost pos: nat, ghost remaining: nat, ghost switching: bool)
      returns (address: nat, cr: bv32)
      requires Valid() && flash.mode.DualStack? && remaining > 0 && source <= pos < flash.Size()
      requires Standing(source, pos, remaining, address0, switching)
      modifies this`lqspiCr
      ensures address < flash.DieSize() && Maps(source, pos, address)
      ensures Tracks(StartOf(source), address, CurrentBank(), switching)
      ensures OnUpper() <==> pos >= flash.DieSize()
      ensures cr == old(lqspiCr) && lqspiCr == if OnUpper() && !old(OnUpper()) then With(cr) else cr
    {
      cr, address := lqspiCr, address0;
      WithIsUpper(cr);
      hide Upper, With;
      if address0 >= flash.DieSize() {
        lqspiCr := With(cr);
        address := address0 - flash.DieSize();
      }
    }

    /** The bank is only written when a switch is pending and it is not bank 0. The
        read goes ahead only if the register of the current die then holds the bank. */
    method SelectBank(address: nat, switching0: bool, ghost source: nat, ghost pos: nat)
      returns (ok: bool, switching: bool)
      requires Valid() && Maps(source, pos, address) && address < flash.DieSize()
      requires Tracks(StartOf(source), address, CurrentBank(), switching0)
      modifies this`steps, this`lowerBank, this`upperBank
      ensures old(steps) <= steps && (AllDone(old(steps), steps) ==> ok)
      ensures ok ==> switching == StillSwitching(address, switching0)
      ensures ok ==> Maps(source, pos, address) && CurrentBank() == address / BANK
    {
      ok, switching := true, switching0;
      TracksTurn(StartOf(source), address, CurrentBank(), switching0, 1);
      if address >= BANK && switching0 {
        ok := SendBankSelect(address / BANK);
        switching := false;
      }
    }

    /** The read of a chunk, and the copy to the destination. */
    method Fetch(address: nat, length: nat, dest: array<bv8>, at: nat, ghost source: nat, ghost pos: nat)
      requires Valid() && Maps(source, pos, address) && address < flash.DieSize() && CurrentBank() == address / BANK
      requires length <= DATA_SIZE && pos + length <= flash.Size() && at + length <= dest.Length
      requires address % BANK + Span(length) <= BANK && dest != readBuffer
      modifies readBuffer, dest
      ensures Copied(dest[..], old(dest[..]), at, length, pos)
    {
      hide Upper, DieByte, Flash.ByteAt;
      ghost var wanted := flash.Bytes(pos, pos + length);
      FlashRead(address, length);
      forall j | 0 <= j < length ensures readBuffer[DATA_START + j] == wanted[j] {
        BusDelivers(source, pos, address, length, j);
      }
      assert readBuffer[DATA_START..DATA_START + length] == wanted;
      forall j | 0 <= j < length {
        dest[at + j] := readBuffer[DATA_START + j];
      }
      assert dest[at..at + length] == readBuffer[DATA_START..DATA_START + length];
    }

    /** One chunk, once its die and bank are selected: how much of it stays in the
        bank, the read, and the copy to the destination. */
    method ReadChunk(address: nat, length0: nat, switching0: bool, dest: array<bv8>, at: nat,
                     ghost source: nat, ghost pos: nat)
      returns (length: nat, switching: bool, ghost chunk: Chunk)
      requires Valid() && Maps(source, pos, address) && address < flash.DieSize() && CurrentBank() == address / BANK
      requires 0 < length0 <= DATA_SIZE && pos + length0 <= flash.Size() && at + length0 <= dest.Length
      requires dest != readBuffer
      modifies readBuffer, dest
      ensures 0 < length <= length0 && chunk.Ok() && chunk.length == length && chunk.address == address
      ensures chunk.bank == CurrentBank() && chunk.span == Span(length)
      ensures var n := if flash.mode.DualParallel? then length0 / 2 else length0;
              && switching == (switching0 || Crosses(address, n))
              && length == if !Crosses(address, n) then length0
                           else if flash.mode.DualParallel? then 2 * Cut(address, n) else Cut(address, n)
      ensures Copied(dest[..], old(dest[..]), at, length, pos)
    {
      hide Upper, Copied, DieByte, Flash.ByteAt, Flash.Bytes;
      length, switching := length0, switching0;
      var n := if flash.mode.DualParallel? then length / 2 else length;
      CutLaw(address, n);
      if Masked(address) != Masked(address + n) {
        length := Masked(address) + BANK - address;
        if flash.mode.DualParallel? {
          length := length * 2;
        }
        switching := true;
      }
      chunk := Chunk(address, Span(length), length, CurrentBank());
      Fetch(address, length, dest, at, source, pos);
    }

    /** Reading up to the cut leaves the transfer standing at the next position. */
    lemma NextChunk(source: nat, pos: nat, remaining: nat, address: nat, switching0: bool, length0: nat, length: nat,
                    start: nat, bank: nat)
      requires Valid() && Maps(source, pos, address) && address < flash.DieSize() && CurrentBank() == address / BANK
      requires start == StartOf(source) && Tracks(start, address, bank, switching0)
      requires 0 < length0 <= remaining && (length0 == DATA_SIZE || length0 == remaining) && length0 <= DATA_SIZE
      requires var n := if flash.mode.DualParallel? then length0 / 2 else length0;
               length == if !Crosses(address, n) then length0
                         else if flash.mode.DualParallel? then 2 * Cut(address, n) else Cut(address, n)
      requires length <= length0
      ensures var n := if flash.mode.DualParallel? then length0 / 2 else length0;
              Standing(source, pos + length, remaining - length,
                       address + (if flash.mode.DualParallel? then length / 2 else length),
                       StillSwitching(address, switching0) || Crosses(address, n))
    {
      hide Upper, Masked, Crosses, Cut, StillSwitching;
      var n := if flash.mode.DualParallel? then length0 / 2 else length0;
      CutLaw(address, n);
      if n > 0 {
        TracksTurn(start, address, bank, switching0, n);
      }
      hide Tracks;
      if !flash.mode.DualParallel? {
        assert length == Cut(address, n) by { UncutLaw(address, n); }
        if flash.mode.DualStack? {
          DieEnds(address, length);
        }
      } else if length < remaining {
        UncutLaw(address, n);
        assert length == 2 * Cut(address, n);
      }
    }

    lemma DieEnds(address: nat, n: nat)
      requires Valid() && address < flash.DieSize() && address % BANK + n <= BANK
      ensures address + n <= flash.DieSize()
    {
    }

    /** n flash bytes from `base` on have been copied to `at`, and nothing else. */
    ghost predicate Copied(now: seq<bv8>, before: seq<bv8>, at: nat, n: nat, base: nat)
      requires Valid() && base + n <= flash.Size()
    {
      && |now| == |before| && at + n <= |now|
      && now[..at] == before[..at] && now[at + n..] == before[at + n..]
      && now[at..at + n] == flash.Bytes(base, base + n)
    }

    lemma NothingCopied(now: seq<bv8>, at: nat, base: nat)
      requires Valid() && base <= flash.Size() && at <= |now|
      ensures Copied(now, now, at, 0, base)
    {
    }

    lemma CopiedOn(now: seq<bv8>, middle: seq<bv8>, before: seq<bv8>, at: nat, n: nat, k: nat, base: nat)
      requires Valid() && base + n + k <= flash.Size()
      requires Copied(middle, before, at, n, base) && Copied(now, middle, at + n, k, base + n)
      ensures Copied(now, before, at, n + k, base)
    {
      assert now[at..at + n] == middle[at..at + n] by { assert now[..at + n] == middle[..at + n]; }
      assert now[at..at + n + k] == now[at..at + n] + now[at + n..at + n + k];
      assert now[..at] == middle[..at] by { assert now[..at + n] == middle[..at + n]; }
      assert now[at + n + k..] == middle[at + n..][k..];
    }

    /** The configuration register differs from its first value `was` by the page
        bit at most, and so does the copy of it that a stacked read keeps. */
    ghost predicate ConfigOk(was: bv32, copy: bv32)
      reads this
    {
      && lqspiCr == (if OnUpper() then With(was) else was)
      && (flash.mode.DualStack? ==> copy == was || copy == With(was))
    }

    /** One turn of the transfer loop. */
    method Turn(address0: nat, lengthBytes: nat, switching0: bool, cr0: bv32, dest: array<bv8>, at: nat,
                ghost source: nat, ghost pos: nat, ghost was: bv32)
      returns (ok: bool, n: nat, address: nat, switching: bool, cr: bv32, ghost chunk: Chunk)
      requires Valid() && lengthBytes > 0 && dest != readBuffer
      requires source <= pos + 1 && pos + lengthBytes <= flash.Size() && at + lengthBytes <= dest.Length
      requires flash.mode.DualStack? ==> source <= pos
      requires Standing(source, pos, lengthBytes, address0, switching0)
      requires lqspiCr == if OnUpper() then With(was) else was
      modifies this, readBuffer, dest
      ensures old(steps) <= steps && (AllDone(old(steps), steps) ==> ok)
      ensures ok ==>
                0 < n <= lengthBytes && chunk.Ok() && Standing(source, pos + n, lengthBytes - n, address, switching)
      ensures ok ==> Copied(dest[..], old(dest[..]), at, n, pos)
      ensures ok ==> ConfigOk(was, cr) && lqspiCr == if OnUpper() then With(was) else was
      ensures !ok ==> dest[..] == old(dest[..])
    {
      hide Upper, With, Tracks, Cut, Crosses, StillSwitching, Masked, Copied, Chunk.Ok;
      var length0 := if lengthBytes > DATA_SIZE then DATA_SIZE else lengthBytes;
      address, cr, n := address0, cr0, 0;
      chunk := Chunk(0, 0, 0, 0);
      if flash.mode.DualStack? {
        address, cr := SelectDie(address, source, pos, lengthBytes, switching0);
      } else {
        OnOneDie(source, pos, lengthBytes, address, switching0);
      }
      ghost var bank := CurrentBank();
      ok, switching := SelectBank(address, switching0, source, pos);
      if !ok {
        return;
      }
      n, switching, chunk := ReadChunk(address, length0, switching, dest, at, source, pos);
      NextChunk(source, pos, lengthBytes, address, switching0, length0, n, StartOf(source), bank);
      address := address + if flash.mode.DualParallel? then n / 2 else n;
    }

    lemma OnOneDie(source: nat, pos: nat, remaining: nat, address: nat, switching: bool)
      requires Valid() && !flash.mode.DualStack? && remaining > 0 && pos < flash.Size()
      requires Standing(source, pos, remaining, address, switching)
      ensures address < flash.DieSize() && Maps(source, pos, address)
      ensures Tracks(StartOf(source), address, CurrentBank(), switching)
    {
    }

    lemma OriginLaw(source: nat)
      ensures source <= flash.Origin(source) + 1 <= source + 1
      ensures flash.mode.DualStack? ==> flash.Origin(source) == source
    {
    }

    lemma StandingAtStart(source: nat, length: nat)
      requires Valid() && Clean() && source + length <= flash.Size()
      ensures Standing(source, flash.Origin(source), length,
                       if flash.mode.DualParallel? then source / 2 else source, true)
      ensures !OnUpper()
    {
    }

    /** At the end of a transfer only the current die can be away from bank 0. */
    lemma StandingAtEnd(source: nat, pos: nat, address: nat, switching: bool, length: nat)
      requires Valid() && Standing(source, pos, 0, address, switching) && source + length <= flash.Size()
      requires pos == flash.Origin(source) + length
      ensures AtRest(source, length)
    {
    }

    ghost predicate AtRest(source: nat, length: nat)
      requires Valid()
      reads this
    {
      match flash.mode
      case Single => !OnUpper() && upperBank == 0
      case DualParallel => !OnUpper() && upperBank == lowerBank
      case DualStack =>
        if OnUpper() then lowerBank == flash.LeftBank(source, length)
        else upperBank == 0 && flash.LeftBank(source, length) == 0
    }

    /** The transfer loop; the configuration register as it was last read is kept
        for the reset behind the loop. */
    method TransferLoop(source: u32, dest: array<bv8>, at: nat, length: u32, uninitialised: bv32)
      returns (ok: bool, lqspiCrReg: bv32, ghost chunks: seq<Chunk>, ghost done: nat)
      requires Valid() && Clean() && dest != readBuffer
      requires source + length <= flash.Size() && at + length <= dest.Length
      modifies this, readBuffer, dest
      ensures old(steps) <= steps && (AllDone(old(steps), steps) ==> ok)
      ensures AllOk(chunks) && if ok then done == length else done < length
      ensures Copied(dest[..], old(dest[..]), at, done, flash.Origin(source))
      ensures ok ==> if length == 0 then lqspiCr == old(lqspiCr) && !OnUpper() && lqspiCrReg == uninitialised
                     else ConfigOk(old(lqspiCr), lqspiCrReg)
      ensures ok ==> AtRest(source, length)
    {
      hide *;
      OriginLaw(source);
      chunks := [];
      NoChunks();
      NothingCopied(dest[..], at, flash.Origin(source));
      var lengthBytes: u32, address: nat, switching := length, source, true;
      ok, lqspiCrReg, done := true, uninitialised, 0;
      if flash.mode.DualParallel? {
        address := source / 2;
      }
      ghost var cr0, base, pos, d0 := lqspiCr, flash.Origin(source), flash.Origin(source), dest[..];
      StandingAtStart(source, length);
      while lengthBytes > 0
        invariant 0 <= lengthBytes <= length && pos == base + length - lengthBytes && old(steps) <= steps && ok
        invariant Standing(source, pos, lengthBytes, address, switching)
        invariant lqspiCr == if OnUpper() then With(cr0) else cr0
        invariant if lengthBytes == length then lqspiCrReg == uninitialised && !OnUpper() else ConfigOk(cr0, lqspiCrReg)
        invariant Copied(dest[..], d0, at, length - lengthBytes, base)
        invariant AllOk(chunks)
      {
        ghost var before, from := dest[..], steps;
        var n;
        ghost var chunk;
        ok, n, address, switching, lqspiCrReg, chunk :=
          Turn(address, lengthBytes, switching, lqspiCrReg, dest, at + length - lengthBytes, source, pos, cr0);
        if !ok {
          if AllDone(old(steps), steps) {
            PartDone(old(steps), from, steps);
          }
          return false, lqspiCrReg, chunks, length - lengthBytes;
        }
        CopiedOn(dest[..], before, d0, at, length - lengthBytes, n, base);
        OneMore(chunks, chunk);
        chunks, pos := chunks + [chunk], pos + n;
        lengthBytes := lengthBytes - n;
      }
      StandingAtEnd(source, pos, address, switching, length);
      done := length;
    }

    /** The transfer loop and the resets behind it, which a failure skips. */
    method IoRead(source: u32, dest: array<bv8>, at: nat, length: u32, uninitialised: bv32)
      returns (ok: bool, ghost chunks: seq<Chunk>, ghost done: nat)
      requires Valid() && Clean() && dest != readBuffer
      requires source + length <= flash.Size() && at + length <= dest.Length
      modifies this, readBuffer, dest
      ensures old(steps) <= steps && (AllDone(old(steps), steps) ==> ok)
      ensures AllOk(chunks) && done <= length && (ok ==> done == length)
      ensures Copied(dest[..], old(dest[..]), at, done, flash.Origin(source))
      ensures ok ==> !OnUpper() && upperBank == 0 && lowerBank == flash.LeftBank(source, length)
      ensures ok ==> lqspiCr == if flash.mode.DualStack? && length == 0 then Without(uninitialised) else old(lqspiCr)
    {
      WithoutRestores(lqspiCr);
      WithoutIsLower(uninitialised);
      hide Upper, With, Without, Copied, AllOk;
      var lqspiCrReg;
      ok, lqspiCrReg, chunks, done := TransferLoop(source, dest, at, length, uninitialised);
      if !ok {
        return;
      }
      ok := SendBankSelect(0);
      if !ok {
        return;
      }
      if flash.mode.DualStack? {
        lqspiCr := Without(lqspiCrReg);
      }
    }

    /** QspiAccess. The bytes delivered are those of the flash from the source
        address on, or from the even address below it when two dies are read in
        parallel. Both dies are left at bank 0, except the lower one of a stack of
        dies with several banks after a transfer that ran from it into the upper
        one. With nothing to read from a stack, the configuration register gets
        an uninitialised value. It fails only when a transfer of a bank selection
        does; the first `done` bytes have been delivered then, and nothing is reset. */
    method QspiAccess(source: u32, dest: array<bv8>, at: nat, length: u32, uninitialised: bv32)
      returns (ok: bool, ghost chunks: seq<Chunk>, ghost done: nat)
      requires Valid() && Clean() && dest != readBuffer
      requires var n := if linear then RoundUp(length) else length;
               source + n <= flash.Size() && at + n <= dest.Length
      modifies this, readBuffer, dest
      ensures old(steps) <= steps && (linear || AllDone(old(steps), steps) ==> ok)
      ensures linear ==>
                && Copied(dest[..], old(dest[..]), at, RoundUp(length), source)
                && lowerBank == upperBank == 0 && lqspiCr == old(lqspiCr)
      ensures !linear ==> done <= length && Copied(dest[..], old(dest[..]), at, done, flash.Origin(source))
      ensures !linear && ok ==>
                && done == length && !OnUpper() && upperBank == 0 && lowerBank == flash.LeftBank(source, length)
                && lqspiCr == (if flash.mode.DualStack? && length == 0 then Without(uninitialised) else old(lqspiCr))
      ensures AllOk(chunks)
    {
      hide Copied, AllOk, Upper, Without, Reader.CurrentBank;
      chunks := [];
      NoChunks();
      if linear {
        done := if length % 4 != 0 then length + (4 - length % 4) else length;
        LinearCopy(source, dest, at, if length % 4 != 0 then length + (4 - length % 4) else length);
        return true, chunks, done;
      }
      ok, chunks, done := IoRead(source, dest, at, length, uninitialised);
    }

    /** Linear mode reads whole words. */
    method LinearCopy(source: nat, dest: array<bv8>, at: nat, length: nat)
      requires Valid() && source + length <= flash.Size() && at + length <= dest.Length
      modifies dest
      ensures Copied(dest[..], old(dest[..]), at, length, source)
    {
      forall j | 0 <= j < length {
        dest[at + j] := flash.ByteAt(source + j);
      }
    }

    /** The addresses a chunk of some length takes on each die. */
    function Span(length: nat): nat { if flash.mode.DualParallel? then (length + 1) / 2 else length }

    lemma BusDelivers(source: nat, pos: nat, address: nat, length: nat, j: nat)
      requires Valid() && Maps(source, pos, address) && address < flash.DieSize() && CurrentBank() == address / BANK
      requires address % BANK + Span(length) <= BANK && j < length && pos + j < flash.Size()
      ensures BusByte(address, j) == flash.ByteAt(pos + j)
    {
      var k := if flash.mode.DualParallel? then j / 2 else j;
      assert (address + k) % BANK == address % BANK + k;
      assert address / BANK * BANK + (address + k) % BANK == address + k;
    }
  }
}

/** The bit of the LQSPI configuration register that selects the upper die. */
module PageBits {
  const U_PAGE: bv32 := 0x1000_0000

  predicate Upper(cr: bv32) { cr & U_PAGE != 0 }

  function With(cr: bv32): bv32 { cr | U_PAGE }

  function Without(cr: bv32): bv32 { cr & !U_PAGE }

  lemma WithIsUpper(cr: bv32)
    ensures Upper(With(cr))
  {
  }

  lemma WithoutIsLower(cr: bv32)
    ensures !Upper(Without(cr))
  {
  }

  lemma ClearedTwice(cr: bv32)
    ensures cr & U_PAGE == 0 ==> cr & !U_PAGE == cr
  {
  }

  lemma SetAndCleared(cr: bv32)
    ensures (cr | U_PAGE) & !U_PAGE == cr & !U_PAGE
  {
  }

  lemma WithoutKeeps(cr: bv32)
    ensures !Upper(cr) ==> Without(cr) == cr
  {
    ClearedTwice(cr);
  }

  lemma WithoutUndoes(cr: bv32)
    ensures Without(With(cr)) == Without(cr)
  {
    SetAndCleared(cr);
  }

  lemma WithoutRestores(cr: bv32)
    ensures !Upper(cr) ==> Without(cr) == cr && Without(With(cr)) == cr
  {
    hide *;
    WithoutKeeps(cr);
    WithoutUndoes(cr);
  }
}
