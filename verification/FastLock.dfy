/** Fast-lock profiles: the pipelined programming sequence, read-back, and the
    bytes a profile is made of. */
module FastLock {
  import opened Bytes
  import opened Registers
  import opened Device

  const WORDS := 16

  /** Profile and word packed into the program address register. */
  function AddrByte(profile: nat, word: nat): bv8 {
    ToByte((profile % 8) * 16 + word % 16)
  }

  lemma AddrRoundTrip(profile: nat, word: nat)
    requires profile < 8 && word < 16
    ensures Addr(AddrByte(profile, word)) == profile * 16 + word
  {
    var a := profile * 16 + word;
    assert (profile % 8) * 16 + word % 16 == a && a % 256 == a;
    LowSeven(a);
  }

  /** ad9361_fastlock_readval: selecting the word, then reading it. */
  function Select(d: Device, tx: bool, profile: nat, word: nat): Device {
    Write(d, FAST_ADDR + Offs(tx), AddrByte(profile, word))
  }

  function ReadVal(d: Device, tx: bool, profile: nat, word: nat): bv8 {
    Read(Select(d, tx, profile, word), FAST_READ + Offs(tx))
  }

  function WordAt(d: Device, tx: bool, profile: nat, word: nat): bv8
    requires profile < 8 && word < 16
  {
    d.Fast(tx)[profile * 16 + word]
  }

  /** The read path delivers the stored word and only moves the address register. */
  lemma ReadValLaw(d: Device, tx: bool, profile: nat, word: nat)
    requires profile < 8 && word < 16
    ensures ReadVal(d, tx, profile, word) == WordAt(d, tx, profile, word)
    ensures Select(d, tx, profile, word) == d.(regs := d.regs[FAST_ADDR + Offs(tx) := AddrByte(profile, word)])
  {
    AddrRoundTrip(profile, word);
  }

  /** ad9361_fastlock_writeval */
  function WriteVal(d: Device, tx: bool, profile: nat, word: nat, val: bv8, last: bool): Device {
    var o := Offs(tx);
    var d1 := Write(d, FAST_ADDR + o, AddrByte(profile, word));
    var d2 := Write(d1, FAST_DATA + o, val);
    var d3 := Write(d2, FAST_CTRL + o, 0x03);
    if last then Write(d3, FAST_CTRL + o, 0) else d3
  }

  lemma WriteValLaw(d: Device, tx: bool, profile: nat, word: nat, val: bv8)
    requires profile < 8 && word < 16
    ensures var e := WriteVal(d, tx, profile, word, val, true);
            && e.Fast(tx) == d.Fast(tx)[profile * 16 + word := val]
            && e.Fast(!tx) == d.Fast(!tx)
            && SameTuning(d, e) && SameClocks(d, e)
            && e.regs[FORCE_ALC + Offs(tx)] == d.regs[FORCE_ALC + Offs(tx)]
  {
    AddrRoundTrip(profile, word);
  }

  /** The device after a whole profile has been written. */
  function Loaded(d: Device, tx: bool, profile: nat, values: seq<bv8>): Device
    requires profile < 8 && |values| == WORDS
  {
    var o := Offs(tx);
    d.(regs := d.regs[FAST_ADDR + o := AddrByte(profile, 15)][FAST_DATA + o := values[15]]
                     [FAST_READ + o := 0][FAST_CTRL + o := 0])
      .WithFast(tx, Spliced(d.Fast(tx), profile, values))
  }

  /** A profile memory with the first words of one profile replaced. */
  function Spliced(m: FastMem, profile: nat, values: seq<bv8>): FastMem
    requires profile < 8 && |values| <= WORDS
  {
    m[..profile * 16] + values + m[profile * 16 + |values|..]
  }

  /** One turn of the load loop: the control byte commits the staged word, then
      the data and address of the next word are staged. */
  lemma LoadTurn(d: Device, tx: bool, profile: nat, i: nat, value: bv8)
    requires profile < 8 && 1 <= i < WORDS
    requires d.regs[FAST_ADDR + Offs(tx)] == AddrByte(profile, i - 1)
    ensures var o := Offs(tx);
            var e := WriteMany(d, FAST_CTRL + o, [0x03, 0, value, AddrByte(profile, i)]);
            && e.Fast(tx) == d.Fast(tx)[profile * 16 + i - 1 := d.regs[FAST_DATA + o]]
            && e.Fast(!tx) == d.Fast(!tx)
            && e.regs == d.regs[FAST_CTRL + o := 0x03][FAST_READ + o := 0][FAST_DATA + o := value]
                               [FAST_ADDR + o := AddrByte(profile, i)]
  {
    AddrRoundTrip(profile, i - 1);
    var o := Offs(tx);
    var a := AddrByte(profile, i);
    var d1 := Write(d, FAST_CTRL + o, 0x03);
    var d2 := Write(d1, FAST_READ + o, 0);
    var d3 := Write(d2, FAST_DATA + o, value);
    var d4 := Write(d3, FAST_ADDR + o, a);
    assert [0x03, 0, value, a][1..] == [0, value, a];
    assert [0, value, a][1..] == [value, a] && [value, a][1..] == [a] && [a][1..] == [];
    assert WriteMany(d4, FAST_ADDR + o - 1, []) == d4;
    assert WriteMany(d3, FAST_ADDR + o, [a]) == d4;
    assert WriteMany(d2, FAST_DATA + o, [value, a]) == d4;
    assert WriteMany(d1, FAST_READ + o, [0, value, a]) == d4;
  }

  /** The first two bytes stage word 0. */
  lemma StageFirst(d: Device, tx: bool, profile: nat, value: bv8)
    requires profile < 8
    ensures var o := Offs(tx);
            WriteMany(d, FAST_DATA + o, [value, AddrByte(profile, 0)]) ==
              d.(regs := d.regs[FAST_DATA + o := value][FAST_ADDR + o := AddrByte(profile, 0)])
  {
    var o := Offs(tx);
    var a := AddrByte(profile, 0);
    assert [value, a][1..] == [a] && [a][1..] == [];
    var d1 := Write(d, FAST_DATA + o, value);
    assert WriteMany(d1, FAST_ADDR + o, [a]) == Write(d1, FAST_ADDR + o, a);
  }

  /** Progress of a load: words before i - 1 are in the profile, word i - 1 is staged. */
  ghost predicate Staged(d0: Device, d: Device, tx: bool, profile: nat, values: seq<bv8>, i: nat)
    requires profile < 8 && |values| == WORDS
  {
    var o := Offs(tx);
    && 1 <= i <= WORDS
    && d.Fast(tx) == Spliced(d0.Fast(tx), profile, values[..i - 1])
    && d.Fast(!tx) == d0.Fast(!tx)
    && d.regs[FAST_ADDR + o] == AddrByte(profile, i - 1) && d.regs[FAST_DATA + o] == values[i - 1]
    && (i > 1 ==> d.regs[FAST_READ + o] == 0)
    && forall a :: 0 <= a < SIZE && !(FAST_ADDR + o <= a <= FAST_CTRL + o) ==> d.regs[a] == d0.regs[a]
  }

  lemma StagedStart(d: Device, tx: bool, profile: nat, values: seq<bv8>)
    requires profile < 8 && |values| == WORDS
    ensures Staged(d, WriteMany(d, FAST_DATA + Offs(tx), [values[0], AddrByte(profile, 0)]), tx, profile, values, 1)
  {
    StageFirst(d, tx, profile, values[0]);
  }

  lemma StagedTurn(d0: Device, d: Device, tx: bool, profile: nat, values: seq<bv8>, i: nat)
    requires profile < 8 && |values| == WORDS && i < WORDS && Staged(d0, d, tx, profile, values, i)
    ensures Staged(d0, WriteMany(d, FAST_CTRL + Offs(tx), [0x03, 0, values[i], AddrByte(profile, i)]),
                   tx, profile, values, i + 1)
  {
    LoadTurn(d, tx, profile, i, values[i]);
    CommitExtends(d0.Fast(tx), profile, values, i - 1);
  }

  lemma CommitExtends(m: FastMem, profile: nat, values: seq<bv8>, n: nat)
    requires profile < 8 && |values| == WORDS && n < WORDS
    ensures Spliced(m, profile, values[..n])[profile * 16 + n := values[n]] == Spliced(m, profile, values[..n + 1])
  {
  }

  lemma StagedEnd(d0: Device, d: Device, tx: bool, profile: nat, values: seq<bv8>)
    requires profile < 8 && |values| == WORDS && Staged(d0, d, tx, profile, values, WORDS)
    ensures var o := Offs(tx);
            Write(Write(d, FAST_CTRL + o, 0x03), FAST_CTRL + o, 0) == Loaded(d0, tx, profile, values)
  {
    var o := Offs(tx);
    AddrRoundTrip(profile, 15);
    CommitExtends(d0.Fast(tx), profile, values, 15);
    assert values[..16] == values;
    var e := Write(Write(d, FAST_CTRL + o, 0x03), FAST_CTRL + o, 0);
    assert e.regs == Loaded(d0, tx, profile, values).regs;
    assert e.Fast(tx) == Loaded(d0, tx, profile, values).Fast(tx);
  }

  /** Saving a profile that was just loaded gives the loaded words, and every
      other profile of either direction still has its own. */
  lemma SaveAfterLoad(d: Device, tx: bool, profile: nat, values: seq<bv8>, b: bool, p: nat, word: nat)
    requires profile < 8 && |values| == WORDS && p < 8 && word < 16
    ensures ReadVal(Loaded(d, tx, profile, values), b, p, word) ==
              if b == tx && p == profile then values[word] else WordAt(d, b, p, word)
  {
    ReadValLaw(Loaded(d, tx, profile, values), b, p, word);
  }
}
