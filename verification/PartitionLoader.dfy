/** The partition loader of the boot loader: which data reach the memory and the
    fabric, and after which checks. */
module PartitionLoader {
  import opened CTypes
  import opened BootHeader

  /** What a byte of memory is: byte k of a partition as it lies in flash, the same
      byte decrypted, something that was decrypted wrongly, or old contents. */
  datatype Cell = Stored(part: nat, byte: nat) | Clear(part: nat, byte: nat) | Garbled | Old(address: nat)

  type Memory = nat -> Cell

  /** What one configuration of the fabric received. */
  datatype Bitstream = Bitstream(part: nat, cells: seq<Cell>)

  /** What loading changes: memory, fabric, and the log of decryptions. */
  datatype World = World(memory: Memory, fabric: seq<Bitstream>, decryptions: seq<nat>)

  datatype Place = OnFlash(part: nat) | InMemory(address: nat)

  datatype Reason =
    | HeaderFail | AuthHeaderFail | InvalidHeader | InvalidLoadAddress | BeforeHookFail | MoveFail
    | ChecksumFail | SignatureFail | DecryptFail | BitstreamFail | AfterHookFail

  /** Falling back does not return to the loader. */
  datatype Outcome = Loaded(execAddress: u32) | Fallback(reason: Reason)

  /** What a partition is taken for; the flags outlive a partition with neither bit. */
  datatype Kind = Neither | Pl | Ps

  function KindOf(h: Header, before: Kind): Kind {
    if PsBit(h) then Ps else if PlBit(h) then Pl else before
  }

  /** Byte k of a partition in flash; a plain one is as good as decrypted. */
  function FlashCell(p: nat, h: Header, k: nat): Cell { if Encrypted(h) then Stored(p, k) else Clear(p, k) }

  function FlashBytes(p: nat, h: Header, n: nat): (s: seq<Cell>)
    ensures |s| == n
  {
    seq(n, k requires 0 <= k < n => FlashCell(p, h, k))
  }

  /** The payload of a partition: its data in the clear. */
  function Payload(p: nat, h: Header): (s: seq<Cell>)
    ensures |s| == 4 * DataWords(h)
  {
    seq(4 * DataWords(h), k requires 0 <= k < 4 * DataWords(h) => Clear(p, k))
  }

  function Range(m: Memory, at: nat, n: nat): (s: seq<Cell>)
    ensures |s| == n
  {
    seq(n, k requires 0 <= k < n => m(at + k))
  }

  /** Everything outside [at, at + n) is the same. */
  ghost predicate Outside(m: Memory, e: Memory, at: nat, n: nat) {
    forall a: nat :: a < at || at + n <= a ==> e(a) == m(a)
  }

  function Write(m: Memory, at: nat, s: seq<Cell>): Memory {
    (a: nat) => if at <= a < at + |s| then s[a - at] else m(a)
  }

  lemma WriteLaw(m: Memory, at: nat, s: seq<Cell>, n: nat)
    requires |s| <= n
    ensures Range(Write(m, at, s), at, |s|) == s && Outside(m, Write(m, at, s), at, n)
  {
  }

  lemma OutsideTwice(m: Memory, e: Memory, f: Memory, at: nat, n: nat)
    requires Outside(m, e, at, n) && Outside(e, f, at, n)
    ensures Outside(m, f, at, n)
  {
  }

  /** The decryption engine: it takes the encrypted bytes of one partition in order,
      from the first on, and makes garbage of anything else. */
  function Decrypted(s: seq<Cell>, n: nat): (r: seq<Cell>)
    ensures |r| == n
  {
    if |s| > 0 && s[0].Stored? && forall k :: 0 <= k < |s| ==> s[k] == Stored(s[0].part, k) then
      seq(n, k requires 0 <= k < n => Clear(s[0].part, k))
    else seq(n, _ => Garbled)
  }

  /** The bytes of an image, decrypted if they are encrypted. */
  function InClear(h: Header, s: seq<Cell>): seq<Cell> { if Encrypted(h) then Decrypted(s, 4 * DataWords(h)) else s }

  /** The words that are moved: of a partition with checks all of it, else its image. */
  function MovedWords(h: Header): u32 { if Verified(h) then PartitionWords(h) else ImageWords(h) }

  /** The bytes that are checked: the length wraps at 32 bits. */
  function CheckedBytes(h: Header): u32 { Wrap32(4 * (PartitionWords(h) as int)) }

  /** Bytes that lie in memory as in flash lead to the payload. */
  lemma PayloadOf(p: nat, h: Header, m: Memory, at: nat, n: nat)
    requires 4 * ImageWords(h) <= n && Range(m, at, n) == FlashBytes(p, h, n) && (Encrypted(h) ==> ImageWords(h) > 0)
    ensures InClear(h, Range(m, at, 4 * ImageWords(h))) == Payload(p, h)
  {
    var r := Range(m, at, 4 * ImageWords(h));
    forall k | 0 <= k < |r| ensures r[k] == FlashCell(p, h, k) {
      assert Range(m, at, n)[k] == FlashBytes(p, h, n)[k];
    }
  }

  lemma PayloadOnFlash(p: nat, h: Header)
    requires Encrypted(h) ==> ImageWords(h) > 0
    ensures InClear(h, FlashBytes(p, h, 4 * ImageWords(h))) == Payload(p, h)
  {
  }

  /** A shorter stretch of what lies as in flash lies as in flash. */
  lemma FlashPrefix(p: nat, h: Header, m: Memory, at: nat, n: nat, k: nat)
    requires k <= n && Range(m, at, n) == FlashBytes(p, h, n)
    ensures Range(m, at, k) == FlashBytes(p, h, k)
  {
    forall i | 0 <= i < k ensures Range(m, at, k)[i] == FlashBytes(p, h, k)[i] {
      assert Range(m, at, n)[i] == FlashBytes(p, h, n)[i];
    }
  }

  /** The checks of a partition see every byte of its image exactly when the image
      is no longer than the partition, whose length counts modulo 0x40000000 words.
      In particular when neither length is that large. */
  lemma ChecksCoverImage(h: Header, at: nat)
    ensures (forall m: Memory, e: Memory :: Range(m, at, CheckedBytes(h)) == Range(e, at, CheckedBytes(h)) ==>
              Range(m, at, 4 * ImageWords(h)) == Range(e, at, 4 * ImageWords(h)))
            <==> ImageWords(h) <= PartitionWords(h) % MAX_IMAGE_WORDS
    ensures PartitionWords(h) < MAX_IMAGE_WORDS ==> PartitionWords(h) % MAX_IMAGE_WORDS == PartitionWords(h)
  {
    var n := CheckedBytes(h);
    WrappedLength(PartitionWords(h));
    if 4 * ImageWords(h) <= n {
      forall m: Memory, e: Memory | Range(m, at, n) == Range(e, at, n)
        ensures Range(m, at, 4 * ImageWords(h)) == Range(e, at, 4 * ImageWords(h))
      {
        SamePrefix(m, e, at, n, 4 * ImageWords(h));
      }
    } else {
      var m: Memory := (a: nat) => Old(a);
      var e: Memory := (a: nat) => if a == at + n then Garbled else Old(a);
      assert Range(m, at, n) == Range(e, at, n);
      assert Range(m, at, 4 * ImageWords(h))[n] != Range(e, at, 4 * ImageWords(h))[n];
    }
  }

  lemma SamePrefix(m: Memory, e: Memory, at: nat, n: nat, k: nat)
    requires k <= n && Range(m, at, n) == Range(e, at, n)
    ensures Range(m, at, k) == Range(e, at, k)
  {
    forall i | 0 <= i < k ensures Range(m, at, k)[i] == Range(e, at, k)[i] {
      assert Range(m, at, n)[i] == Range(e, at, n)[i];
    }
  }

  lemma WrappedLength(words: u32)
    ensures Wrap32(4 * (words as int)) == 4 * (words % MAX_IMAGE_WORDS)
    ensures words < MAX_IMAGE_WORDS ==> words % MAX_IMAGE_WORDS == words
  {
  }

  const NO_HEADER: Header := [0, 0, 0, 0, 0, 0, 0, 0, 0, 0, 0, 0, 0, 0, 0, 0]

  /** A signed bitstream of two words in a partition of one. */
  const LONG_IMAGE: Header := [2, 2, 1, 0, 0, 0, 0x8020, 0, 0, 0, 0, 0, 0, 0, 0, 0xFFFF_7FDA]

  /** A word for address 0x1000 with neither bit set. */
  const NEITHER_KIND: Header := [1, 1, 1, 0x1000, 0, 0, 0, 0, 0, 0, 0, 0, 0, 0, 0, 0xFFFF_EFFC]

  /** A plain application of one word for address 0x100000. */
  const SMALL_APP: Header := [1, 1, 1, 0x10_0000, 0, 0, 0x10, 0, 0, 0, 0, 0, 0, 0, 0, 0xFFEF_FFEC]

  lemma SmallAppIsValid()
    ensures ValidHeader(SMALL_APP)
  {
    SumOfFive(1, 1, 1, 0x10_0000, 0x10, 0xFFEF_FFEC);
  }

  lemma LongImageIsValid()
    ensures ValidHeader(LONG_IMAGE)
  {
    SumOfFive(2, 2, 1, 0, 0x8020, 0xFFFF_7FDA);
  }

  lemma NeitherKindIsValid()
    ensures ValidHeader(NEITHER_KIND)
  {
    SumOfFive(1, 1, 1, 0x1000, 0, 0xFFFF_EFFC);
  }

  lemma SumOfFive(image: u32, data: u32, partition: u32, load: u32, attr: u32, checksum: u32)
    ensures Sum([image, data, partition, load, 0, 0, attr, 0, 0, 0, 0, 0, 0, 0, 0, checksum]) ==
              image + data + partition + load + attr + checksum
  {
    hide Sum;
    var h := NO_HEADER;
    ZeroSum(h);
    SumUpdate(h, 0, image);
    SumUpdate(h[0 := image], 1, data);
    SumUpdate(h[0 := image][1 := data], 2, partition);
    SumUpdate(h[0 := image][1 := data][2 := partition], 3, load);
    SumUpdate(h[0 := image][1 := data][2 := partition][3 := load], 6, attr);
    SumUpdate(h[0 := image][1 := data][2 := partition][3 := load][6 := attr], 15, checksum);
    assert h[0 := image][1 := data][2 := partition][3 := load][6 := attr][15 := checksum] ==
           [image, data, partition, load, 0, 0, attr, 0, 0, 0, 0, 0, 0, 0, 0, checksum];
  }

  datatype Env = Env(linear: bool, rsaSupport: bool, mmc: bool, authenticateHeaders: bool, ddrStart: nat, ddrEnd: nat)

  datatype Address = Good | Bad | End

  datatype Gate = Use | Skip | Stop | Refuse(reason: Reason)

  class Loader {
    const env: Env
    const headers: seq<Header>
    // the outcomes of the hardware operations and user hooks, in order
    const outcomes: nat -> bool
    const checksumMatches: (nat, seq<Cell>) -> bool
    const signatureMatches: seq<Cell> -> bool

    var steps: nat
    var plFlag: bool
    var psFlag: bool
    var encryptedFlag: bool
    var checksumFlag: bool
    var signedFlag: bool
    var applicationFlag: bool
    var memory: Memory
    var fabric: seq<Bitstream>
    var decryptions: seq<nat>

    constructor (env: Env, headers: seq<Header>, outcomes: nat -> bool,
                 checksumMatches: (nat, seq<Cell>) -> bool, signatureMatches: seq<Cell> -> bool)
      ensures this.env == env && this.headers == headers && this.outcomes == outcomes
      ensures this.checksumMatches == checksumMatches && this.signatureMatches == signatureMatches
      ensures !plFlag && !psFlag && fabric == [] && decryptions == []
    {
      this.env, this.headers, this.outcomes := env, headers, outcomes;
      this.checksumMatches, this.signatureMatches := checksumMatches, signatureMatches;
      steps, plFlag, psFlag, encryptedFlag, checksumFlag, signedFlag, applicationFlag :=
        0, false, false, false, false, false, false;
      memory, fabric, decryptions := (a: nat) => Old(a), [], [];
    }

    /** The next hardware operation or hook. */
    method Attempt() returns (ok: bool)
      modifies this`steps
      ensures ok == outcomes(old(steps)) && steps == old(steps) + 1
    {
      ok := outcomes(steps);
      steps := steps + 1;
    }

    /** The operations number i to j have gone well. */
    predicate AllDone(i: nat, j: nat) { forall n :: i <= n < j ==> outcomes(n) }

    /** Operation j - 1 is the first of those from i on that has gone wrong. */
    predicate LastFailed(i: nat, j: nat) { i < j && AllDone(i, j - 1) && !outcomes(j - 1) }

    lemma NoSteps(i: nat)
      ensures AllDone(i, i)
    {
    }

    lemma OneMoreStep(i: nat, j: nat)
      requires i <= j && AllDone(i, j)
      ensures if outcomes(j) then AllDone(i, j + 1) else LastFailed(i, j + 1)
    {
    }

    lemma StepsOn(i: nat, j: nat, k: nat)
      requires i <= j <= k && AllDone(i, j)
      ensures AllDone(j, k) <==> AllDone(i, k)
      ensures LastFailed(j, k) ==> LastFailed(i, k)
    {
    }

    function Now(): World
      reads this
    {
      World(memory, fabric, decryptions)
    }

    function Kind(): Kind
      reads this
    {
      if psFlag then Ps else if plFlag then Pl else Neither
    }

    /** The flags say what the header says. */
    predicate FlagsOf(h: Header)
      reads this
    {
      && !(psFlag && plFlag)
      && encryptedFlag == Encrypted(h) && checksumFlag == Checksummed(h) && signedFlag == Signed(h)
    }

    /** The bytes at a place: in flash there is one partition after the other. */
    function At(from: Place, h: Header, n: nat): seq<Cell>
      reads this
    {
      match from
      case OnFlash(p) => FlashBytes(p, h, n)
      case InMemory(a) => Range(memory, a, n)
    }

    /** MoveImage, from flash to memory; lengths are 32-bit byte counts. */
    method MoveImage(p: nat, to: nat, bytes: u32) returns (ok: bool)
      requires p < |headers|
      modifies this`steps, this`memory
      ensures ok == outcomes(old(steps)) && steps == old(steps) + 1
      ensures ok ==> memory == Write(old(memory), to, FlashBytes(p, headers[p], bytes))
      ensures !ok ==> memory == old(memory)
    {
      ok := Attempt();
      if ok {
        memory := Write(memory, to, FlashBytes(p, headers[p], bytes));
      }
    }

    /** PcapDataTransfer: a copy in memory or from flash, decrypting when asked to. */
    method PcapDataTransfer(from: Place, to: nat, h: Header, sourceWords: u32, destWords: u32, secure: bool, p: nat)
      returns (ok: bool)
      modifies this`steps, this`memory, this`decryptions
      ensures ok == outcomes(old(steps)) && steps == old(steps) + 1
      ensures ok ==>
                memory == Write(old(memory), to,
                                if secure then Decrypted(old(At(from, h, 4 * sourceWords)), 4 * destWords)
                                else old(At(from, h, 4 * destWords)))
      ensures ok ==> decryptions == old(decryptions) + if secure then [p] else []
      ensures !ok ==> memory == old(memory) && decryptions == old(decryptions)
    {
      ok := Attempt();
      if ok {
        var data :=
          if secure then Decrypted(At(from, h, 4 * sourceWords), 4 * destWords) else At(from, h, 4 * destWords);
        memory := Write(memory, to, data);
        if secure {
          decryptions := decryptions + [p];
        }
      }
    }

    /** PcapLoadPartition: the data go to the fabric, through the decryption engine
        when the bitstream is encrypted. */
    method PcapLoadPartition(from: Place, h: Header, sourceWords: u32, destWords: u32, secure: bool, p: nat)
      returns (ok: bool)
      modifies this`steps, this`fabric
      ensures ok == outcomes(old(steps)) && steps == old(steps) + 1
      ensures ok ==>
                var source := At(from, h, 4 * sourceWords);
                fabric == old(fabric) + [Bitstream(p, if secure then Decrypted(source, 4 * destWords) else source)]
      ensures !ok ==> fabric == old(fabric)
    {
      ok := Attempt();
      if ok {
        var source := At(from, h, 4 * sourceWords);
        fabric := fabric + [Bitstream(p, if secure then Decrypted(source, 4 * destWords) else source)];
      }
    }

    /** PartitionMove */
    method PartitionMove(p: nat) returns (ok: bool)
      requires p < |headers| && FlagsOf(headers[p])
      modifies this`steps, this`memory, this`fabric, this`decryptions
      ensures ok ==> Moved(p, Kind(), old(Now()), Now())
      ensures !ok ==> fabric == old(fabric)
      ensures ok ==> steps == old(steps) + MoveSteps(p, Kind()) && AllDone(old(steps), steps)
      ensures !ok ==> steps <= old(steps) + MoveSteps(p, Kind()) && LastFailed(old(steps), steps)
    {
      hide Payload, FlashBytes, Range, Write, Decrypted, Outside, Checksummed, Signed, Wrap32, InClear, AllDone;
      hide LastFailed, MoveSteps;
      NoSteps(steps);
      ghost var s0, k := steps, Kind();
      var h := headers[p];
      var verified := signedFlag || checksumFlag;
      ghost var m0, target, extent := memory, Target(p, Kind()), Extent(p);
      var source, loadAddr: nat := OnFlash(p), LoadAddr(h);
      var secure := encryptedFlag;
      var imageWords, dataWords := ImageWords(h), DataWords(h);
      if verified {
        imageWords, dataWords := PartitionWords(h), PartitionWords(h);
      }
      if psFlag && verified && encryptedFlag {
        secure := false;
      }
      MoveStepsAre(p, k);
      Unchanged(memory, target, extent);
      PayloadArrives(p, target, m0);
      InClearIs(h, FlashBytes(p, h, 4 * ImageWords(h)));
      InClearIs(h, Range(WithMoved(p, target, m0), target, 4 * ImageWords(h)));
      if !env.linear {
        if plFlag {
          loadAddr := env.ddrStart;
        }
        OneMoreStep(s0, s0);
        ok := CopyFromFlash(p, loadAddr, imageWords, extent);
        if !ok {
          return;
        }
        source := InMemory(loadAddr);
      }
      if (env.linear && plFlag && verified) || (env.linear && psFlag) || (!env.linear && psFlag && secure) {
        if plFlag {
          secure, loadAddr := false, env.ddrStart;
        }
        ghost var m1 := memory;
        OneMoreStep(s0, steps);
        ok := TransferToTarget(p, source, loadAddr, imageWords, dataWords, secure, extent);
        if !ok {
          return;
        }
        OutsideTwice(m0, m1, memory, target, extent);
        source := InMemory(loadAddr);
      }
      if plFlag && !verified {
        OneMoreStep(s0, steps);
        ok := PcapLoadPartition(source, h, ImageWords(h), DataWords(h), encryptedFlag, p);
        if !ok {
          return;
        }
      }
      ok := true;
    }

    lemma MoveStepsAre(p: nat, k: Kind)
      requires p < |headers|
      ensures !env.linear ==>
                var again := !Verified(headers[p]) && (k == Pl || (k == Ps && Encrypted(headers[p])));
                MoveSteps(p, k) == if again then 2 else 1
      ensures env.linear ==> MoveSteps(p, k) == if k == Neither then 0 else 1
    {
    }

    lemma InClearIs(h: Header, s: seq<Cell>)
      ensures InClear(h, s) == if Encrypted(h) then Decrypted(s, 4 * DataWords(h)) else s
    {
    }

    /** MoveImage of some words of a partition. */
    method CopyFromFlash(p: nat, to: nat, words: u32, ghost n: nat) returns (ok: bool)
      requires p < |headers| && 4 * words <= n
      modifies this`steps, this`memory
      ensures ok == outcomes(old(steps)) && steps == old(steps) + 1
      ensures ok ==>
                var bytes := Wrap32(4 * (words as int));
                && memory == Write(old(memory), to, FlashBytes(p, headers[p], bytes))
                && Range(memory, to, bytes) == FlashBytes(p, headers[p], bytes) && Outside(old(memory), memory, to, n)
    {
      hide Write, Range, Outside, FlashBytes, Decrypted, Payload;
      ghost var m, h := memory, headers[p];
      var bytes := Wrap32(4 * (words as int));
      ok := MoveImage(p, to, bytes);
      WriteLaw(m, to, FlashBytes(p, h, bytes), n);
    }

    /** A PCAP transfer to where the partition is wanted. */
    method TransferToTarget(p: nat, source: Place, to: nat, imageWords: u32, dataWords: u32, secure: bool, ghost n: nat)
      returns (ok: bool)
      requires p < |headers| && 4 * dataWords <= n
      modifies this`steps, this`memory, this`decryptions
      ensures ok == outcomes(old(steps)) && steps == old(steps) + 1
      ensures ok ==>
                var data := if secure then Decrypted(old(At(source, headers[p], 4 * imageWords)), 4 * dataWords)
                            else old(At(source, headers[p], 4 * dataWords));
                && memory == Write(old(memory), to, data) && Range(memory, to, 4 * dataWords) == data
                && Outside(old(memory), memory, to, n)
                && decryptions == old(decryptions) + if secure then [p] else []
    {
      hide Write, Range, Outside, Decrypted, FlashBytes;
      ghost var m, h := memory, headers[p];
      ghost var data :=
        if secure then Decrypted(At(source, h, 4 * imageWords), 4 * dataWords) else At(source, h, 4 * dataWords);
      ok := PcapDataTransfer(source, to, headers[p], imageWords, dataWords, secure, p);
      WriteLaw(m, to, data, n);
    }

    /** The bytes a move takes from flash; without linear flash their length wraps. */
    function MovedBytes(h: Header): nat {
      if env.linear then 4 * MovedWords(h) else Wrap32(4 * (MovedWords(h) as int))
    }

    /** The whole image is moved, and there is something to decrypt if it is encrypted. */
    predicate Complete(h: Header) { 4 * ImageWords(h) <= MovedBytes(h) && (Encrypted(h) ==> ImageWords(h) > 0) }

    /** With linear flash a partition of neither kind stays where it is. */
    predicate Moves(k: Kind) { !env.linear || k != Neither }

    /** Memory with the moved bytes at a place. */
    function WithMoved(p: nat, at: nat, m: Memory): Memory
      requires p < |headers|
    {
      Write(m, at, FlashBytes(p, headers[p], MovedBytes(headers[p])))
    }

    /** What the fabric receives of bitstream p when memory m is in place: always as
        many bytes as the image has, from flash or from where they were moved to. */
    function Programmed(p: nat, m: Memory): seq<Cell>
      requires p < |headers|
    {
      var h := headers[p];
      InClear(h, if env.linear && !Verified(h) then FlashBytes(p, h, 4 * ImageWords(h))
                 else Range(WithMoved(p, env.ddrStart, m), env.ddrStart, 4 * ImageWords(h)))
    }

    /** What a move of a complete partition leads to. */
    lemma PayloadArrives(p: nat, at: nat, m: Memory)
      requires p < |headers|
      ensures var h := headers[p];
              var e := WithMoved(p, at, m);
              && Range(e, at, MovedBytes(h)) == FlashBytes(p, h, MovedBytes(h))
              && (Complete(h) ==>
                    && InClear(h, Range(e, at, 4 * ImageWords(h))) == Payload(p, h)
                    && InClear(h, FlashBytes(p, h, 4 * ImageWords(h))) == Payload(p, h))
    {
      hide Range, FlashBytes, Write, InClear, Payload, Outside, MovedWords, Wrap32;
      var h := headers[p];
      WriteLaw(m, at, FlashBytes(p, h, MovedBytes(h)), MovedBytes(h));
      if Complete(h) {
        PayloadOf(p, h, WithMoved(p, at, m), at, MovedBytes(h));
        PayloadOnFlash(p, h);
      }
    }

    /** Byte k of a plain bitstream that goes through memory is that of the flash as
        far as bytes were moved, and what lay in memory before beyond that. */
    lemma ProgrammedByte(p: nat, m: Memory, k: nat)
      requires p < |headers| && !Encrypted(headers[p]) && k < 4 * ImageWords(headers[p])
      requires !env.linear || Verified(headers[p])
      ensures Programmed(p, m)[k] == if k < MovedBytes(headers[p]) then Clear(p, k) else m(env.ddrStart + k)
    {
      hide MovedWords, Wrap32, Verified;
    }

    /** Whatever the memory held, the fabric receives the payload exactly when the
        partition is complete, or nothing. */
    lemma ProgrammedIsPayload(p: nat)
      requires p < |headers|
      ensures (forall m: Memory :: Programmed(p, m) == Payload(p, headers[p]))
              <==> Complete(headers[p]) || DataWords(headers[p]) == 0
    {
      var h := headers[p];
      if Complete(h) {
        forall m: Memory ensures Programmed(p, m) == Payload(p, h) {
          PayloadArrives(p, env.ddrStart, m);
          hide *;
          ProgrammedWhenComplete(p, m);
        }
      } else if DataWords(h) > 0 {
        IncompleteBitstream(p);
      }
      hide Payload, InClear, MovedBytes, Verified, FlashBytes;
    }

    lemma ProgrammedWhenComplete(p: nat, m: Memory)
      requires p < |headers| && Complete(headers[p])
      ensures Programmed(p, m) == Payload(p, headers[p])
    {
      PayloadArrives(p, env.ddrStart, m);
      hide InClear, Payload, Range, FlashBytes, WithMoved, Complete, MovedBytes;
    }

    lemma IncompleteBitstream(p: nat)
      requires p < |headers| && !Complete(headers[p]) && DataWords(headers[p]) > 0
      ensures Programmed(p, (a: nat) => Garbled) != Payload(p, headers[p])
    {
      var h, m: Memory := headers[p], (a: nat) => Garbled;
      hide Wrap32, MovedWords, Checksummed, Signed;
      assert Payload(p, h)[0] == Clear(p, 0);
      if 4 * ImageWords(h) > MovedBytes(h) {
        var k := MovedBytes(h);
        var s := Range(WithMoved(p, env.ddrStart, m), env.ddrStart, 4 * ImageWords(h));
        assert s[k] == Garbled;
        if !Encrypted(h) {
          assert Payload(p, h)[k] == Clear(p, k);
        }
      }
    }

    /** A bitstream longer than its partition: only the partition is moved and checked,
        and the rest of what is programmed is old memory. */
    lemma LongImageIsUnchecked(p: nat, m: Memory)
      requires p < |headers| && headers[p] == LONG_IMAGE
      ensures ValidHeader(headers[p]) && Signed(headers[p]) && PlBit(headers[p]) && FsblOwned(headers[p])
      ensures CheckedBytes(headers[p]) == 4 && |Programmed(p, m)| == 8
      ensures forall k :: 4 <= k < 8 ==> Programmed(p, m)[k] == m(env.ddrStart + k)
    {
      LongImageIsValid();
      forall k | 4 <= k < 8 ensures Programmed(p, m)[k] == m(env.ddrStart + k) {
        ProgrammedByte(p, m, k);
      }
    }

    /** A partition of 0x40000000 words: the byte length wraps to zero, so that the
        checks see nothing, and without linear flash nothing is moved either. */
    lemma WrappedLengthIsUnchecked(p: nat, m: Memory)
      requires p < |headers| && !Encrypted(headers[p]) && Signed(headers[p])
      requires PartitionWords(headers[p]) == MAX_IMAGE_WORDS
      ensures CheckedBytes(headers[p]) == 0
      ensures !env.linear ==> Programmed(p, m) == Range(m, env.ddrStart, 4 * ImageWords(headers[p]))
    {
      if !env.linear {
        forall k | 0 <= k < 4 * ImageWords(headers[p]) ensures Programmed(p, m)[k] == m(env.ddrStart + k) {
          ProgrammedByte(p, m, k);
        }
      }
    }

    lemma Unchanged(m: Memory, at: nat, n: nat)
      ensures Outside(m, m, at, n)
    {
    }

    /** Where the data to be checked, and to be used, are after the move. */
    function Target(p: nat, k: Kind): nat
      requires p < |headers|
    {
      if k == Pl then env.ddrStart else LoadAddr(headers[p])
    }

    /** The bytes a partition may occupy at its target. */
    function Extent(p: nat): nat
      requires p < |headers|
    {
      var h := headers[p];
      4 * (if ImageWords(h) < PartitionWords(h) then PartitionWords(h) else ImageWords(h)) + 4 * DataWords(h)
    }

    /** After the move: what has to be checked lies at the target as far as it was
        moved, plain partitions without checks are in place, bitstreams without checks
        are loaded. */
    ghost predicate Moved(p: nat, k: Kind, w: World, e: World)
      requires p < |headers|
    {
      var h := headers[p];
      && Outside(w.memory, e.memory, Target(p, k), Extent(p))
      && (Verified(h) || k == Neither ==>
            e.memory == if Moves(k) then WithMoved(p, Target(p, k), w.memory) else w.memory)
      && (!Verified(h) && k == Ps ==>
            && e.decryptions == w.decryptions + (if Encrypted(h) then [p] else [])
            && (Complete(h) ==> Range(e.memory, Target(p, k), 4 * DataWords(h)) == Payload(p, h)))
      && (Verified(h) || k != Ps ==> e.decryptions == w.decryptions)
      && (if !Verified(h) && k == Pl then LoadedOnce(p, w.memory, w.fabric, e.fabric) else e.fabric == w.fabric)
    }

    ghost predicate LoadedOnce(p: nat, m: Memory, f: seq<Bitstream>, g: seq<Bitstream>)
      requires p < |headers|
    {
      g == f + [Bitstream(p, Programmed(p, m))]
    }

    /** DecryptPartition: in place. */
    method DecryptPartition(p: nat, at: nat) returns (ok: bool)
      requires p < |headers|
      modifies this`steps, this`memory, this`decryptions
      ensures ok == outcomes(old(steps)) && steps == old(steps) + 1
      ensures ok ==> memory == Write(old(memory), at, Decrypted(Range(old(memory), at, 4 * ImageWords(headers[p])),
                                                                4 * DataWords(headers[p])))
      ensures decryptions == old(decryptions) + if ok then [p] else []
      ensures !ok ==> memory == old(memory)
    {
      var h := headers[p];
      ok := PcapDataTransfer(InMemory(at), at, h, ImageWords(h), DataWords(h), true, p);
    }

    /** ValidateParition: the digest in flash against the one of the bytes in memory. */
    method ValidatePartition(p: nat, at: nat, bytes: nat) returns (ok: bool)
      modifies this`steps
      ensures steps == old(steps) + 1
      ensures ok <==> outcomes(old(steps)) && checksumMatches(p, Range(memory, at, bytes))
    {
      ok := Attempt();
      if ok {
        ok := checksumMatches(p, Range(memory, at, bytes));
      }
    }

    /** These bytes pass the checks partition p asks for. */
    predicate PassedOn(p: nat, bytes: seq<Cell>)
      requires p < |headers|
    {
      var h := headers[p];
      && (Checksummed(h) ==> checksumMatches(p, bytes))
      && (Signed(h) ==> env.rsaSupport && signatureMatches(bytes))
    }

    /** What a partition needs before it is used: its checks hold of its bytes in flash. */
    predicate Passed(p: nat)
      requires p < |headers|
    {
      PassedOn(p, FlashBytes(p, headers[p], CheckedBytes(headers[p])))
    }

    /** A check fails on these bytes: the checksum, or behind it the signature. */
    predicate Refuted(p: nat, reason: Reason, bytes: seq<Cell>)
      requires p < |headers|
    {
      var h := headers[p];
      || (reason == ChecksumFail && Checksummed(h) && !checksumMatches(p, bytes))
      || (&& reason == SignatureFail && Signed(h) && !(env.rsaSupport && signatureMatches(bytes))
          && (Checksummed(h) ==> checksumMatches(p, bytes)))
    }

    // ---- the hardware operations of a partition, in order ----

    function HookSteps(k: Kind): nat { if k == Pl then 1 else 0 }

    /** A copy without linear flash; a transfer to a place from linear flash, or to
        decrypt an application; and the programming of an unchecked bitstream. */
    function MoveSteps(p: nat, k: Kind): nat
      requires p < |headers|
    {
      var h := headers[p];
      var transfer :=
        if env.linear then k == Ps || (k == Pl && Verified(h)) else k == Ps && Encrypted(h) && !Verified(h);
      (if env.linear then 0 else 1) + (if transfer then 1 else 0) + (if k == Pl && !Verified(h) then 1 else 0)
    }

    function ChecksumSteps(p: nat): nat
      requires p < |headers|
    {
      if Checksummed(headers[p]) then 1 else 0
    }

    function DecryptSteps(p: nat, k: Kind): nat
      requires p < |headers|
    {
      if k == Ps && Verified(headers[p]) && Encrypted(headers[p]) then 1 else 0
    }

    function ProgramSteps(p: nat, k: Kind): nat
      requires p < |headers|
    {
      if k == Pl && Verified(headers[p]) then 1 else 0
    }

    function StepCount(p: nat, k: Kind): nat
      requires p < |headers|
    {
      HookSteps(k) + MoveSteps(p, k) + ChecksumSteps(p) + DecryptSteps(p, k) + ProgramSteps(p, k) + HookSteps(k)
    }

    /** The reason given when operation n of the partition fails. */
    function ReasonAt(p: nat, k: Kind, n: nat): Reason
      requires p < |headers|
    {
      var moved := HookSteps(k) + MoveSteps(p, k);
      var checked := moved + ChecksumSteps(p);
      var decrypted := checked + DecryptSteps(p, k);
      if n < HookSteps(k) then BeforeHookFail
      else if n < moved then MoveFail
      else if n < checked then ChecksumFail
      else if n < decrypted then DecryptFail
      else if n < decrypted + ProgramSteps(p, k) then BitstreamFail
      else AfterHookFail
    }

    /** What the checks of a partition see: the flash, or without a move what is there. */
    function Seen(p: nat, k: Kind, m: Memory): seq<Cell>
      requires p < |headers|
    {
      var n := CheckedBytes(headers[p]);
      if Moves(k) then FlashBytes(p, headers[p], n) else Range(m, Target(p, k), n)
    }

    /** Why a partition could not be used, between operations i and j: the last of them
        failed, with the reason that goes with it, or all went well and a check did not. */
    predicate Failed(p: nat, k: Kind, reason: Reason, m: Memory, i: nat, j: nat)
      requires p < |headers|
    {
      || (LastFailed(i, j) && j <= i + StepCount(p, k) && reason == ReasonAt(p, k, j - 1 - i))
      || (i <= j && AllDone(i, j) && Verified(headers[p]) && Refuted(p, reason, Seen(p, k, m)))
    }

    /** The checks of a moved partition, on the bytes at its target. */
    method Check(p: nat) returns (r: Result<()>, reason: Reason)
      requires p < |headers| && FlagsOf(headers[p])
      modifies this`steps
      ensures r.Ok? ==> PassedOn(p, Range(memory, Target(p, Kind()), CheckedBytes(headers[p])))
      ensures r.Ok? ==> steps == old(steps) + ChecksumSteps(p) && AllDone(old(steps), steps)
      ensures r.Err? ==>
                || (reason == ChecksumFail && ChecksumSteps(p) == 1 && steps == old(steps) + 1 && !outcomes(old(steps)))
                || (&& AllDone(old(steps), steps) && old(steps) <= steps
                    && Refuted(p, reason, Range(memory, Target(p, Kind()), CheckedBytes(headers[p]))))
    {
      var h := headers[p];
      var start, bytes := Target(p, Kind()), Wrap32(4 * (PartitionWords(h) as int));
      reason := ChecksumFail;
      if checksumFlag {
        var ok := ValidatePartition(p, start, bytes);
        if !ok {
          return Err, ChecksumFail;
        }
      }
      if signedFlag {
        if !env.rsaSupport || !signatureMatches(Range(memory, start, bytes)) {
          return Err, SignatureFail;
        }
      }
      r := Ok(());
    }

    /** After a move the checks see what lies in flash, whatever the lengths say. */
    lemma CheckedAsInFlash(p: nat, at: nat, m: Memory)
      requires p < |headers| && Verified(headers[p])
      ensures var n := CheckedBytes(headers[p]);
              Range(WithMoved(p, at, m), at, n) == FlashBytes(p, headers[p], n)
    {
      hide Range, FlashBytes, Write, Verified, InClear, Payload, WithMoved;
      var h := headers[p];
      PayloadArrives(p, at, m);
      WrappedLength(PartitionWords(h));
      FlashPrefix(p, h, WithMoved(p, at, m), at, MovedBytes(h), CheckedBytes(h));
    }

    /** Partition p has been used as its kind demands. */
    ghost predicate Used(p: nat, k: Kind, w: World, e: World)
      requires p < |headers|
    {
      var h := headers[p];
      && Outside(w.memory, e.memory, Target(p, k), Extent(p))
      && (Moves(k) ==> Passed(p))
      && (k == Ps && Complete(h) ==> Range(e.memory, LoadAddr(h), 4 * DataWords(h)) == Payload(p, h))
      && (k == Neither ==> e.memory == if Moves(k) then WithMoved(p, LoadAddr(h), w.memory) else w.memory)
      && e.decryptions == w.decryptions + (if k == Ps && Encrypted(h) then [p] else [])
      && (if k == Pl then LoadedOnce(p, w.memory, w.fabric, e.fabric) else e.fabric == w.fabric)
    }

    /** Why a moved partition could not be used, between operations i and j. */
    predicate FailedBehind(p: nat, k: Kind, reason: Reason, m: Memory, i: nat, j: nat)
      requires p < |headers|
    {
      var moved := HookSteps(k) + MoveSteps(p, k);
      || (&& LastFailed(i, j) && j + moved < i + StepCount(p, k) + 1 - HookSteps(k)
          && reason == ReasonAt(p, k, moved + j - 1 - i))
      || (i <= j && AllDone(i, j) && Verified(headers[p]) && Refuted(p, reason, Seen(p, k, m)))
    }

    lemma FailedIs(p: nat, k: Kind, reason: Reason, m: Memory, i: nat, at: nat, j: nat)
      requires p < |headers| && at == i + HookSteps(k) + MoveSteps(p, k) && AllDone(i, at)
      requires FailedBehind(p, k, reason, m, at, j)
      ensures Failed(p, k, reason, m, i, j)
    {
      hide Seen, Refuted, ReasonAt, MoveSteps, AllDone, LastFailed;
      if at <= j {
        StepsOn(i, at, j);
      }
      StepsForward(at, j);
    }

    lemma StepsForward(i: nat, j: nat)
      ensures LastFailed(i, j) ==> i < j
    {
    }

    /** A checked partition is decrypted or programmed once its checks have passed. */
    method UseVerified(p: nat, ghost m0: Memory) returns (r: Result<()>, reason: Reason)
      requires p < |headers| && FlagsOf(headers[p]) && Verified(headers[p])
      requires memory == if Moves(Kind()) then WithMoved(p, Target(p, Kind()), m0) else m0
      requires Outside(m0, memory, Target(p, Kind()), Extent(p))
      modifies this`steps, this`memory, this`fabric, this`decryptions
      ensures var w := World(m0, old(fabric), old(decryptions)); r.Ok? ==> Used(p, Kind(), w, Now())
      ensures r.Err? ==> fabric == old(fabric)
      ensures r.Ok? ==>
                && steps == old(steps) + ChecksumSteps(p) + DecryptSteps(p, Kind()) + ProgramSteps(p, Kind())
                && AllDone(old(steps), steps)
      ensures r.Err? ==> FailedBehind(p, Kind(), reason, memory, old(steps), steps)
    {
      hide Payload, FlashBytes, Range, Write, Decrypted, Outside, PassedOn, InClear, WithMoved, Complete, CheckedBytes;
      hide AllDone, LastFailed, Refuted, MoveSteps;
      var h := headers[p];
      ghost var s0, m1, target, extent := steps, memory, Target(p, Kind()), Extent(p);
      r, reason := Check(p);
      CheckedAsInFlash(p, target, m0);
      NoSteps(s0);
      OneMoreStep(s0, s0);
      if r.Err? {
        return;
      }
      PayloadArrives(p, target, m0);
      InClearIs(h, Range(memory, target, 4 * ImageWords(h)));
      if encryptedFlag && psFlag {
        OneMoreStep(s0, steps);
        var ok := DecryptPartition(p, Target(p, Kind()));
        if !ok {
          return Err, DecryptFail;
        }
        WriteLaw(m1, target, Decrypted(Range(m1, target, 4 * ImageWords(h)), 4 * DataWords(h)), extent);
        OutsideTwice(m0, m1, memory, target, extent);
      }
      if plFlag {
        OneMoreStep(s0, steps);
        var ok := PcapLoadPartition(InMemory(Target(p, Kind())), h, ImageWords(h), DataWords(h), encryptedFlag, p);
        if !ok {
          return Err, BitstreamFail;
        }
      }
      r := Ok(());
    }

    /** A moved partition without checks has been used already. */
    lemma MovedIsUsed(p: nat, k: Kind, w: World, e: World)
      requires p < |headers| && !Verified(headers[p]) && Moved(p, k, w, e)
      ensures Used(p, k, w, e)
    {
      hide Payload, Range, Outside, PassedOn, WithMoved, Complete, Programmed, FlashBytes, CheckedBytes;
      NothingToPass(p);
    }

    /** One with checks lies at its target, and nothing else has been done. */
    lemma MovedToBeChecked(p: nat, k: Kind, w: World, e: World)
      requires p < |headers| && Verified(headers[p]) && Moved(p, k, w, e)
      ensures e == World(if Moves(k) then WithMoved(p, Target(p, k), w.memory) else w.memory, w.fabric, w.decryptions)
      ensures Outside(w.memory, e.memory, Target(p, k), Extent(p))
    {
      hide Payload, Range, Outside, WithMoved, Complete, Programmed, FlashBytes;
    }

    lemma MovedOnce(p: nat, k: Kind, w: World, e: World)
      requires p < |headers| && Moved(p, k, w, e)
      ensures e.fabric == w.fabric || (k == Pl && LoadedOnce(p, w.memory, w.fabric, e.fabric) && Passed(p))
      ensures Verified(headers[p]) ==> e.fabric == w.fabric
    {
      hide Payload, Range, Outside, WithMoved, Complete, Programmed, FlashBytes, CheckedBytes, PassedOn;
      if !Verified(headers[p]) {
        NothingToPass(p);
      }
    }

    lemma UsedOnce(p: nat, k: Kind, w: World, e: World)
      requires p < |headers| && Used(p, k, w, e)
      ensures e.fabric == w.fabric || (k == Pl && LoadedOnce(p, w.memory, w.fabric, e.fabric) && Passed(p))
    {
      hide Payload, Range, Outside, WithMoved, Complete, Programmed, FlashBytes, CheckedBytes, PassedOn;
    }

    /** The part of the loop that moves, checks, decrypts and programs one partition. */
    method UsePartition(p: nat) returns (r: Result<()>, reason: Reason)
      requires p < |headers| && FlagsOf(headers[p])
      modifies this`steps, this`memory, this`fabric, this`decryptions
      ensures r.Ok? ==> Used(p, Kind(), old(Now()), Now())
      ensures fabric == old(fabric)
              || (Kind() == Pl && LoadedOnce(p, old(memory), old(fabric), fabric) && Passed(p))
      ensures r.Ok? ==> steps == old(steps) + StepCount(p, Kind()) && AllDone(old(steps), steps)
      ensures r.Err? ==> Failed(p, Kind(), reason, memory, old(steps), steps)
    {
      hide Moved, Used, Passed, LoadedOnce, Outside, AllDone, LastFailed, Refuted, MoveSteps, Extent, Target, Moves;
      hide WithMoved, Checksummed, Signed, Encrypted, Seen;
      ghost var s0, k, w := steps, Kind(), Now();
      NoSteps(s0);
      OneMoreStep(s0, s0);
      reason := BeforeHookFail;
      if plFlag {
        var ok := Attempt();
        if !ok {
          return Err, BeforeHookFail;
        }
      }
      ghost var s1 := steps;
      var ok := PartitionMove(p);
      ghost var s2, e := steps, Now();
      StepsForward(s1, s2);
      StepsOn(s0, s1, s2);
      if !ok {
        return Err, MoveFail;
      }
      MovedOnce(p, k, w, e);
      if signedFlag || checksumFlag {
        MovedToBeChecked(p, k, w, e);
        r, reason := UseVerified(p, w.memory);
        if r.Err? {
          FailedIs(p, k, reason, memory, s0, s2, steps);
          return;
        }
        StepsOn(s0, s2, steps);
        UsedOnce(p, k, w, Now());
      } else {
        MovedIsUsed(p, k, w, e);
      }
      OneMoreStep(s0, steps);
      if plFlag {
        ok := Attempt();
        if !ok {
          return Err, AfterHookFail;
        }
      }
      r := Ok(());
    }

    lemma NothingToPass(p: nat)
      requires p < |headers| && !Verified(headers[p])
      ensures Passed(p)
    {
    }

    // ---- the loop over the partitions ----

    function First(): nat { if env.mmc then 0 else 1 }

    /** The kind a partition is taken for, after the headers before n. */
    function KindAt(n: nat, start: Kind): Kind
      requires First() <= n <= |headers|
    {
      if n == First() then start
      else if FsblOwned(headers[n - 1]) then KindOf(headers[n - 1], KindAt(n - 1, start)) else KindAt(n - 1, start)
    }

    /** An application partition was met before n. */
    predicate AppBefore(n: nat)
      requires First() <= n <= |headers|
    {
      exists i :: First() <= i < n && FsblOwned(headers[i]) && PsBit(headers[i])
    }

    /** Partition i belongs to the loader and is taken for kind k. */
    predicate Is(i: nat, start: Kind, k: Kind)
      requires First() <= i < |headers|
    {
      FsblOwned(headers[i]) && KindAt(i + 1, start) == k
    }

    /** The bitstreams among the partitions before n, in order. */
    function Bitstreams(n: nat, start: Kind): seq<nat>
      requires First() <= n <= |headers|
    {
      if n == First() then [] else Bitstreams(n - 1, start) + if Is(n - 1, start, Pl) then [n - 1] else []
    }

    /** The encrypted application partitions among them. */
    function EncryptedApps(n: nat, start: Kind): seq<nat>
      requires First() <= n <= |headers|
    {
      if n == First() then []
      else EncryptedApps(n - 1, start) + if Is(n - 1, start, Ps) && Encrypted(headers[n - 1]) then [n - 1] else []
    }

    /** The execution address: that of the first application partition. */
    function Exec(n: nat, start: Kind): u32
      requires First() <= n <= |headers|
    {
      if n == First() then 0
      else if AnyApp(n - 1, start) || !Is(n - 1, start, Ps) then Exec(n - 1, start)
      else ExecAddr(headers[n - 1])
    }

    /** Where loading ends before the last partition: at a bitstream behind an
        application, or at an application with load address zero and no protection. */
    predicate StopsAt(n: nat, start: Kind)
      requires First() <= n < |headers|
    {
      var h := headers[n];
      && FsblOwned(h)
      && (|| (PlBit(h) && AppBefore(n))
          || AddressOf(h, KindAt(n + 1, start)) == End)
    }

    /** What went into the fabric after f: partition numbers and contents. */
    ghost predicate FabricIs(f: seq<Bitstream>, parts: seq<nat>, g: seq<Bitstream>) {
      && |g| == |f| + |parts| && g[..|f|] == f
      && forall i :: 0 <= i < |parts| ==> BitstreamIs(g[|f| + i], parts[i])
    }

    /** A bitstream that has passed its checks, in the clear if it is complete. */
    ghost predicate BitstreamIs(b: Bitstream, p: nat) {
      b.part == p < |headers| && Passed(p) && (Complete(headers[p]) ==> b.cells == Payload(p, headers[p]))
    }

    /** The bytes of application i lie clear of what is written for partition j. */
    predicate Apart(i: nat, j: nat, start: Kind)
      requires First() <= i < |headers| && First() <= j < |headers|
    {
      var at, end := LoadAddr(headers[i]), LoadAddr(headers[i]) + 4 * DataWords(headers[i]);
      var target := Target(j, KindAt(j + 1, start));
      FsblOwned(headers[j]) ==> end <= target || target + Extent(j) <= at
    }

    /** Application i, once loaded, is still in memory unless overwritten since. */
    ghost predicate InPlace(i: nat, n: nat, start: Kind, m: Memory)
      requires First() <= i < n <= |headers|
    {
      Is(i, start, Ps) && Complete(headers[i]) && (forall j :: i < j < n ==> Apart(i, j, start)) ==>
        Range(m, LoadAddr(headers[i]), 4 * DataWords(headers[i])) == Payload(i, headers[i])
    }

    /** What the checks of partition i have established. */
    predicate Admitted(i: nat, start: Kind)
      requires First() <= i < |headers|
    {
      && ValidHeader(headers[i]) && !StopsAt(i, start)
      && (FsblOwned(headers[i]) ==> AddressOf(headers[i], KindAt(i + 1, start)) == Good)
      && (FsblOwned(headers[i]) && Moves(KindAt(i + 1, start)) ==> Passed(i))
    }

    /** The discipline of the loader: with the partitions before n dealt with, the
        fabric has received exactly the bitstreams among them, in order, once each,
        in the clear; exactly the encrypted applications have been decrypted, once
        each; all of them have passed their checks; and each application is at its
        load address unless a later partition was loaded over it. */
    ghost predicate Done(n: nat, start: Kind, w: World, e: World)
      requires First() <= n <= |headers|
    {
      && FabricIs(w.fabric, Bitstreams(n, start), e.fabric)
      && e.decryptions == w.decryptions + EncryptedApps(n, start)
      && (forall i :: First() <= i < n ==> Admitted(i, start)) && AllInPlace(n, start, e.memory)
    }

    ghost predicate AllInPlace(n: nat, start: Kind, m: Memory)
      requires First() <= n <= |headers|
    {
      forall i :: First() <= i < n ==> InPlace(i, n, start, m)
    }

    lemma FabricMore(p: nat, m: Memory, f: seq<Bitstream>, parts: seq<nat>, g: seq<Bitstream>, e: seq<Bitstream>)
      requires p < |headers| && FabricIs(f, parts, g) && LoadedOnce(p, m, g, e) && Passed(p)
      ensures FabricIs(f, parts + [p], e)
    {
      hide Complete, Payload, Passed, Programmed;
      if Complete(headers[p]) {
        ProgrammedWhenComplete(p, m);
      }
      forall i | 0 <= i < |parts| + 1 ensures BitstreamIs(e[|f| + i], (parts + [p])[i]) {
        if i < |parts| {
          assert e[|f| + i] == g[|f| + i];
        }
      }
      assert e[..|f|] == g[..|f|];
    }

    lemma InPlaceStep(i: nat, n: nat, start: Kind, w: World, e: World)
      requires First() <= i < n < |headers| && InPlace(i, n, start, w.memory) && FsblOwned(headers[n])
      requires Used(n, KindAt(n + 1, start), w, e)
      ensures InPlace(i, n + 1, start, e.memory)
    {
      hide KindAt, Complete, Payload, Passed, Extent, Apart, LoadedOnce, Range;
      if (forall j :: i < j < n + 1 ==> Apart(i, j, start)) {
        assert Apart(i, n, start);
        SameRange(i, n, start, w.memory, e.memory);
      }
    }

    lemma SameRange(i: nat, n: nat, start: Kind, m: Memory, e: Memory)
      requires First() <= i < |headers| && First() <= n < |headers| && FsblOwned(headers[n]) && Apart(i, n, start)
      requires Outside(m, e, Target(n, KindAt(n + 1, start)), Extent(n))
      ensures var at, n := LoadAddr(headers[i]), 4 * DataWords(headers[i]); Range(e, at, n) == Range(m, at, n)
    {
      hide KindAt;
    }

    /** One more partition. */
    lemma DoneMore(n: nat, start: Kind, w: World, e: World, x: World)
      requires First() <= n < |headers| && Done(n, start, w, e) && FsblOwned(headers[n])
      requires Used(n, KindAt(n + 1, start), e, x) && ValidHeader(headers[n]) && !StopsAt(n, start)
      requires AddressOf(headers[n], KindAt(n + 1, start)) == Good
      ensures Done(n + 1, start, w, x)
    {
      hide KindAt, Used, FabricIs, InPlace, Bitstreams, EncryptedApps, StopsAt, ValidHeader, AddressOf, Passed;
      hide AllInPlace, Complete;
      FabricStep(n, start, w, e, x);
      DecryptionStep(n, start, w, e, x);
      AdmittedNow(n, start, e, x);
      StillInPlace(n, start, e, x);
    }

    lemma FabricStep(n: nat, start: Kind, w: World, e: World, x: World)
      requires First() <= n < |headers| && FsblOwned(headers[n]) && Used(n, KindAt(n + 1, start), e, x)
      requires FabricIs(w.fabric, Bitstreams(n, start), e.fabric)
      ensures FabricIs(w.fabric, Bitstreams(n + 1, start), x.fabric)
    {
      hide KindAt, FabricIs, Bitstreams, Passed, Complete, LoadedOnce, Outside, Extent, Range, Payload;
      Lists(n, start);
      if KindAt(n + 1, start) == Pl {
        FabricMore(n, e.memory, w.fabric, Bitstreams(n, start), e.fabric, x.fabric);
      }
    }

    lemma DecryptionStep(n: nat, start: Kind, w: World, e: World, x: World)
      requires First() <= n < |headers| && FsblOwned(headers[n]) && Used(n, KindAt(n + 1, start), e, x)
      requires e.decryptions == w.decryptions + EncryptedApps(n, start)
      ensures x.decryptions == w.decryptions + EncryptedApps(n + 1, start)
    {
      hide KindAt, EncryptedApps, Bitstreams, Passed, Complete, LoadedOnce, Outside, Extent, Range, Payload;
      Lists(n, start);
    }

    lemma AdmittedNow(n: nat, start: Kind, e: World, x: World)
      requires First() <= n < |headers| && FsblOwned(headers[n]) && Used(n, KindAt(n + 1, start), e, x)
      requires ValidHeader(headers[n]) && !StopsAt(n, start) && AddressOf(headers[n], KindAt(n + 1, start)) == Good
      ensures Admitted(n, start)
    {
      hide KindAt, StopsAt, ValidHeader, AddressOf, Passed, Complete, LoadedOnce, Outside, Extent, Range, Payload;
    }

    lemma StillInPlace(n: nat, start: Kind, w: World, e: World)
      requires First() <= n < |headers| && FsblOwned(headers[n]) && Used(n, KindAt(n + 1, start), w, e)
      requires AllInPlace(n, start, w.memory)
      ensures AllInPlace(n + 1, start, e.memory)
    {
      hide KindAt, Used, InPlace;
      var m := n + 1;
      forall i | First() <= i < m ensures InPlace(i, m, start, e.memory) {
        if i < n {
          InPlaceStep(i, n, start, w, e);
        } else {
          JustLoaded(n, start, w, e);
        }
      }
    }

    lemma Lists(n: nat, start: Kind)
      requires First() <= n < |headers|
      ensures Bitstreams(n + 1, start) == if Is(n, start, Pl) then Bitstreams(n, start) + [n] else Bitstreams(n, start)
      ensures EncryptedApps(n + 1, start) ==
                if Is(n, start, Ps) && Encrypted(headers[n]) then EncryptedApps(n, start) + [n]
                else EncryptedApps(n, start)
    {
    }

    lemma JustLoaded(n: nat, start: Kind, w: World, e: World)
      requires First() <= n < |headers| && Used(n, KindAt(n + 1, start), w, e)
      ensures InPlace(n, n + 1, start, e.memory)
    {
      hide KindAt, Complete, Payload, Extent, Apart, Passed, Range, LoadedOnce, Outside;
    }

    /** A partition with another owner is skipped. */
    lemma Skipped(n: nat, start: Kind, w: World, e: World)
      requires First() <= n < |headers| && Done(n, start, w, e) && !FsblOwned(headers[n]) && ValidHeader(headers[n])
      ensures Done(n + 1, start, w, e)
    {
      hide Complete, Payload, Extent, ValidHeader, Passed, FabricIs, KindAt;
      var m := n + 1;
      Lists(n, start);
      forall i | First() <= i < m ensures InPlace(i, m, start, e.memory) && Admitted(i, start) {
        if i < n {
          assert InPlace(i, n, start, e.memory) && Admitted(i, start);
        }
      }
    }

    /** The flags for partition n, from its header. */
    method TakeFlags(n: nat) returns (stop: bool)
      requires First() <= n < |headers| && !(psFlag && plFlag)
      modifies this`plFlag, this`psFlag, this`encryptedFlag, this`checksumFlag, this`signedFlag, this`applicationFlag
      ensures stop == (PlBit(headers[n]) && old(applicationFlag))
      ensures !stop ==> FlagsOf(headers[n]) && Kind() == KindOf(headers[n], old(Kind()))
      ensures !stop ==> applicationFlag == (old(applicationFlag) || PsBit(headers[n]))
    {
      var h := headers[n];
      if PlBit(h) {
        plFlag, psFlag := true, false;
        if applicationFlag {
          return true;
        }
      }
      if PsBit(h) {
        psFlag, plFlag, applicationFlag := true, false, true;
      }
      encryptedFlag, checksumFlag, signedFlag := DataWords(h) != ImageWords(h), Checksummed(h), Signed(h);
      stop := false;
    }

    /** The load address check: applications begin in the DDR, or end the loading
        when they have load address zero and no protection. */
    method CheckAddress(n: nat) returns (a: Address)
      requires n < |headers| && FlagsOf(headers[n])
      ensures a == AddressOf(headers[n], Kind())
      ensures a == Good <==> !psFlag || env.ddrStart <= LoadAddr(headers[n]) <= env.ddrEnd
      ensures a == End <==>
                && psFlag && LoadAddr(headers[n]) == 0 < env.ddrStart
                && !Signed(headers[n]) && !Encrypted(headers[n])
    {
      if psFlag && LoadAddr(headers[n]) < env.ddrStart {
        return if LoadAddr(headers[n]) == 0 && !(signedFlag || encryptedFlag) then End else Bad;
      }
      a := if psFlag && LoadAddr(headers[n]) > env.ddrEnd then Bad else Good;
    }

    function AddressOf(h: Header, k: Kind): Address {
      if k != Ps then Good
      else if LoadAddr(h) < env.ddrStart then (if LoadAddr(h) == 0 && !Signed(h) && !Encrypted(h) then End else Bad)
      else if LoadAddr(h) > env.ddrEnd then Bad else Good
    }

    /** A partition is of neither kind exactly when the loader starts with neither flag
        and no header of its own, up to this one, has a bit set. */
    lemma {:induction false} NeitherAt(n: nat, start: Kind)
      requires First() <= n <= |headers|
      ensures KindAt(n, start) == Neither <==>
                && start == Neither
                && forall i :: First() <= i < n && FsblOwned(headers[i]) ==> !PsBit(headers[i]) && !PlBit(headers[i])
    {
      hide FsblOwned, PsBit, PlBit;
      if n > First() {
        NeitherAt(n - 1, start);
      }
    }

    /** The admitted partitions that are moved to an address outside the DDR are
        exactly those of neither kind, behind flash that is not linear, whose load
        address is outside: only for applications it is looked at. */
    lemma MovedOutsideDdr(n: nat, start: Kind)
      requires First() <= n < |headers| && Admitted(n, start) && FsblOwned(headers[n]) && env.ddrStart <= env.ddrEnd
      ensures var k := KindAt(n + 1, start);
              Moves(k) && !(env.ddrStart <= Target(n, k) <= env.ddrEnd) <==>
                && !env.linear && start == Neither
                && (forall i :: First() <= i <= n && FsblOwned(headers[i]) ==> !PsBit(headers[i]) && !PlBit(headers[i]))
                && !(env.ddrStart <= LoadAddr(headers[n]) <= env.ddrEnd)
    {
      NeitherAt(n + 1, start);
      hide KindAt, FsblOwned, PsBit, PlBit, Passed;
    }

    /** A first partition with neither bit is admitted and written to its load address,
        wherever that is. */
    lemma NeitherIsWrittenAnywhere(n: nat, w: World, e: World)
      requires n == First() < |headers| && headers[n] == NEITHER_KIND && !env.linear && env.ddrStart > 0x1003
      requires Used(n, KindAt(n + 1, Neither), w, e)
      ensures FsblOwned(headers[n]) && Admitted(n, Neither) && LoadAddr(headers[n]) == 0x1000 < env.ddrStart
      ensures forall k :: 0 <= k < 4 ==> e.memory(0x1000 + k) == Clear(n, k)
    {
      NeitherKindIsValid();
      assert KindAt(n, Neither) == Neither && KindAt(n + 1, Neither) == Neither;
      assert Passed(n);
      hide Passed, KindAt;
      assert MovedBytes(headers[n]) == 4;
      assert e.memory == WithMoved(n, 0x1000, w.memory);
    }

    /** The check looks at where an application begins, not at where it ends. */
    lemma EndIsNotChecked(h: Header)
      requires LoadAddr(h) == env.ddrEnd >= env.ddrStart && DataWords(h) > 0
      ensures AddressOf(h, Ps) == Good && LoadAddr(h) + 4 * DataWords(h) - 1 > env.ddrEnd
    {
    }

    /** The flags agree with the headers before n. */
    ghost predicate Flags(n: nat, start: Kind)
      requires First() <= n <= |headers|
      reads this
    {
      Kind() == KindAt(n, start) && !(psFlag && plFlag) && applicationFlag == AppBefore(n)
    }

    // ---- when an image loads ----

    /** The hardware operations for the partitions before n. */
    function StepsTo(n: nat, start: Kind): nat
      requires First() <= n <= |headers|
    {
      if n == First() then 0
      else StepsTo(n - 1, start) + if FsblOwned(headers[n - 1]) then StepCount(n - 1, KindAt(n, start)) else 0
    }

    ghost predicate AllAdmitted(n: nat, start: Kind)
      requires First() <= n <= |headers|
    {
      forall i :: First() <= i < n ==> Admitted(i, start)
    }

    /** Loading ends at partition e, from hardware operation s on: it is the last one,
        or stops the loader; all before it are admitted; and all operations go well. */
    ghost predicate Loads(e: nat, total: nat, start: Kind, s: nat)
      requires total <= |headers|
    {
      && First() <= e <= total && AllAdmitted(e, start)
      && (e < total ==> ValidHeader(headers[e]) && StopsAt(e, start))
      && AllDone(s, s + StepsTo(e, start))
    }

    /** No partition with checks stays where it is, so that all checks see the flash. */
    ghost predicate ChecksSeeFlash(e: nat, start: Kind)
      requires First() <= e <= |headers|
    {
      forall i :: First() <= i < e && FsblOwned(headers[i]) && Verified(headers[i]) ==> Moves(KindAt(i + 1, start))
    }

    /** An image that must load. */
    ghost predicate Sound(total: nat, start: Kind, s: nat)
      requires total <= |headers|
    {
      exists e :: Loads(e, total, start, s) && ChecksSeeFlash(e, start)
    }

    /** Why loading falls back at partition n, between hardware operations s and j. */
    ghost predicate Blamed(n: nat, start: Kind, reason: Reason, m: Memory, s: nat, j: nat)
      requires First() <= n < |headers|
    {
      var h, k, at := headers[n], KindAt(n + 1, start), s + StepsTo(n, start);
      && AllAdmitted(n, start) && AllDone(s, at)
      && match reason
         case InvalidHeader => !ValidHeader(h) && j == at
         case InvalidLoadAddress =>
           ValidHeader(h) && FsblOwned(h) && !StopsAt(n, start) && AddressOf(h, k) == Bad && j == at
         case HeaderFail => false
         case AuthHeaderFail => false
         case _ =>
           && ValidHeader(h) && FsblOwned(h) && !StopsAt(n, start) && AddressOf(h, k) == Good
           && Failed(n, k, reason, m, at, j)
    }

    lemma {:induction false} StepsGrow(n: nat, e: nat, start: Kind)
      requires First() <= n <= e <= |headers|
      ensures StepsTo(n, start) <= StepsTo(e, start)
    {
      hide StepCount, KindAt, FsblOwned;
      if n < e {
        StepsGrow(n, e - 1, start);
      }
    }

    lemma NextSteps(n: nat, start: Kind)
      requires First() <= n < |headers|
      ensures StepsTo(n + 1, start) ==
                StepsTo(n, start) + if FsblOwned(headers[n]) then StepCount(n, KindAt(n + 1, start)) else 0
    {
    }

    /** A partition whose operations go well and whose checks hold in flash is used. */
    lemma NothingFails(p: nat, k: Kind, reason: Reason, m: Memory, i: nat, j: nat)
      requires p < |headers| && AllDone(i, i + StepCount(p, k))
      requires Verified(headers[p]) ==> Moves(k) && Passed(p)
      ensures !Failed(p, k, reason, m, i, j)
    {
      hide StepCount, ReasonAt, FlashBytes, CheckedBytes;
    }

    /** A sound image cannot be blamed on any partition. */
    lemma SoundIsNotBlamed(total: nat, start: Kind, s: nat, n: nat, reason: Reason, m: Memory, j: nat)
      requires total <= |headers| && Sound(total, start, s) && First() <= n < total
      ensures !Blamed(n, start, reason, m, s, j)
    {
      hide StepCount, KindAt, StepsTo, Failed, AddressOf, ValidHeader, StopsAt, Passed, AllDone;
      if Blamed(n, start, reason, m, s, j) {
        var e: nat :| Loads(e, total, start, s) && ChecksSeeFlash(e, start);
        if n < e {
          assert Admitted(n, start);
          NextSteps(n, start);
          StepsGrow(n + 1, e, start);
          if FsblOwned(headers[n]) {
            var k, at := KindAt(n + 1, start), s + StepsTo(n, start);
            DoneWithin(s, s + StepsTo(e, start), at, at + StepCount(n, k));
            NothingFails(n, k, reason, m, at, j);
          }
        } else if e < n {
          NotStopped(e, n, start);
        }
      }
    }

    lemma NotStopped(i: nat, n: nat, start: Kind)
      requires First() <= i < n <= |headers| && AllAdmitted(n, start)
      ensures !StopsAt(i, start)
    {
      hide StopsAt, ValidHeader, Passed, AddressOf;
      assert Admitted(i, start);
    }

    lemma DoneWithin(i: nat, j: nat, a: nat, b: nat)
      requires AllDone(i, j) && i <= a && b <= j
      ensures AllDone(a, b)
    {
    }

    /** What becomes of partition n, from its header alone. */
    predicate GateOf(n: nat, start: Kind, g: Gate)
      requires First() <= n < |headers|
    {
      var h := headers[n];
      var a := AddressOf(h, KindAt(n + 1, start));
      match g
      case Refuse(reason) =>
        || (reason == InvalidHeader && !ValidHeader(h))
        || (reason == InvalidLoadAddress && ValidHeader(h) && FsblOwned(h) && !StopsAt(n, start) && a == Bad)
      case Stop => ValidHeader(h) && StopsAt(n, start)
      case Skip => ValidHeader(h) && !FsblOwned(h)
      case Use => ValidHeader(h) && FsblOwned(h) && !StopsAt(n, start) && a == Good
    }

    /** The part of the loop before a partition is used: its header, owner, flags and
        load address. */
    method Admit(n: nat, ghost start: Kind) returns (g: Gate)
      requires First() <= n < |headers| && Flags(n, start)
      modifies this`plFlag, this`psFlag, this`encryptedFlag, this`checksumFlag, this`signedFlag, this`applicationFlag
      ensures GateOf(n, start, g)
      ensures g == Skip || g == Use ==> Flags(n + 1, start)
      ensures g == Use ==> FlagsOf(headers[n])
    {
      hide KindAt, StopsAt, AppBefore, ValidHeader, Checksummed, Signed, Loader.AddressOf, AnyApp, Exec;
      var valid := ValidateHeader(headers[n]);
      if !valid {
        return Refuse(InvalidHeader);
      }
      NextKind(n, start);
      if !FsblOwned(headers[n]) {
        return Skip;
      }
      var stop := TakeFlags(n);
      if stop {
        return Stop;
      }
      var address := CheckAddress(n);
      g := if address == End then Stop else if address == Bad then Refuse(InvalidLoadAddress) else Use;
    }

    /** LoadBootImage, from the header table on. On every exit, `count` partitions
        have been dealt with; a failure in the next one may come after its bitstream
        was programmed. */
    method LoadPartitions(partitionCount: nat) returns (o: Outcome, count: nat)
      requires First() <= partitionCount <= |headers| && !(psFlag && plFlag)
      modifies this
      ensures First() <= count <= partitionCount
      ensures o.Loaded? ==>
                && Done(count, old(Kind()), old(Now()), Now()) && o.execAddress == Exec(count, old(Kind()))
                && (count == partitionCount || StopsAt(count, old(Kind())))
      ensures o.Fallback? ==>
                && count < partitionCount
                && (|| FabricIs(old(fabric), Bitstreams(count, old(Kind())), fabric)
                    || FabricIs(old(fabric), Bitstreams(count + 1, old(Kind())), fabric))
      ensures o.Loaded? ==>
                && Loads(count, partitionCount, old(Kind()), old(steps))
                && steps == old(steps) + StepsTo(count, old(Kind()))
      ensures o.Fallback? ==> Blamed(count, old(Kind()), o.reason, memory, old(steps), steps)
      ensures Sound(partitionCount, old(Kind()), old(steps)) ==> o.Loaded?
    {
      hide Done, Used, KindAt, StopsAt, Exec, FabricIs, Bitstreams, AppBefore, Complete, ValidHeader, AnyApp;
      hide LoadedOnce, Passed, Checksummed, Signed, Loader.AddressOf, PsBit, PlBit, FsblOwned, KindOf, ExecAddr;
      hide StepCount, StepsTo, Failed, AllDone, LastFailed, Sound, Loads, Blamed, AllAdmitted;
      applicationFlag := false;
      ghost var start, w, s0 := Kind(), Now(), steps;
      Beginning(start, w);
      BeginningSteps(start, s0);
      var execAddress, execFlag := 0, false;
      count := First();
      while count < partitionCount
        invariant First() <= count <= partitionCount
        invariant Flags(count, start) && Done(count, start, w, Now())
        invariant execFlag == AnyApp(count, start) && execAddress == Exec(count, start)
        invariant steps == s0 + StepsTo(count, start) && AllDone(s0, steps)
        decreases partitionCount - count
      {
        ghost var e := Now();
        DoneFabric(count, start, w, e);
        NextKind(count, start);
        NextSteps(count, start);
        var gate := Admit(count, start);
        if gate.Refuse? {
          Blame(count, start, w, e, gate.reason, s0, steps, partitionCount);
          return Fallback(gate.reason), count;
        }
        if gate == Stop {
          LoadsHere(count, start, w, e, s0, partitionCount);
          break;
        }
        if gate == Skip {
          Skipped(count, start, w, e);
          count := count + 1;
          continue;
        }
        if psFlag && !execFlag {
          execFlag, execAddress := true, ExecAddr(headers[count]);
        }
        ghost var at := steps;
        var used, reason := UsePartition(count);
        if used.Err? {
          UsedHalf(count, start, w, e, fabric);
          BlameUse(count, start, w, e, memory, reason, s0, steps, partitionCount);
          return Fallback(reason), count;
        }
        DoneMore(count, start, w, e, Now());
        StepsOn(s0, at, steps);
        count := count + 1;
      }
      if count == partitionCount {
        LoadsHere(count, start, w, Now(), s0, partitionCount);
      }
      return Loaded(execAddress), count;
    }

    lemma BeginningSteps(start: Kind, s: nat)
      requires First() <= |headers|
      ensures StepsTo(First(), start) == 0 && AllDone(s, s)
    {
    }

    /** Loading ends here. */
    lemma LoadsHere(n: nat, start: Kind, w: World, e: World, s: nat, total: nat)
      requires First() <= n <= total <= |headers| && Done(n, start, w, e) && AllDone(s, s + StepsTo(n, start))
      requires n < total ==> ValidHeader(headers[n]) && StopsAt(n, start)
      ensures Loads(n, total, start, s)
    {
      hide Admitted, FabricIs, AllInPlace, ValidHeader, StopsAt, StepsTo, AllDone;
    }

    /** Falling back on a header or its load address. */
    lemma Blame(n: nat, start: Kind, w: World, e: World, reason: Reason, s: nat, j: nat, total: nat)
      requires First() <= n < total <= |headers| && Done(n, start, w, e) && j == s + StepsTo(n, start) && AllDone(s, j)
      requires || (reason == InvalidHeader && !ValidHeader(headers[n]))
               || (&& reason == InvalidLoadAddress && ValidHeader(headers[n]) && FsblOwned(headers[n])
                   && !StopsAt(n, start) && AddressOf(headers[n], KindAt(n + 1, start)) == Bad)
      ensures Blamed(n, start, reason, e.memory, s, j) && !Sound(total, start, s)
    {
      hide Admitted, FabricIs, AllInPlace, ValidHeader, StopsAt, StepsTo, AllDone, AddressOf, KindAt, FsblOwned, Sound;
      assert Blamed(n, start, reason, e.memory, s, j);
      if Sound(total, start, s) {
        SoundIsNotBlamed(total, start, s, n, reason, e.memory, j);
      }
    }

    /** Falling back because the partition could not be used. */
    lemma BlameUse(n: nat, start: Kind, w: World, e: World, m: Memory, reason: Reason, s: nat, j: nat, total: nat)
      requires First() <= n < total <= |headers| && Done(n, start, w, e) && AllDone(s, s + StepsTo(n, start))
      requires ValidHeader(headers[n]) && FsblOwned(headers[n]) && !StopsAt(n, start)
      requires AddressOf(headers[n], KindAt(n + 1, start)) == Good
      requires Failed(n, KindAt(n + 1, start), reason, m, s + StepsTo(n, start), j)
      ensures Blamed(n, start, reason, m, s, j) && !Sound(total, start, s)
    {
      hide Admitted, FabricIs, AllInPlace, ValidHeader, StopsAt, StepsTo, AllDone, AddressOf, KindAt, FsblOwned, Sound;
      hide Failed, Blamed;
      var k, at := KindAt(n + 1, start), s + StepsTo(n, start);
      FailedReason(n, k, reason, m, at, j);
      BlamedUse(n, start, reason, m, s, at, j, k);
      if Sound(total, start, s) {
        SoundIsNotBlamed(total, start, s, n, reason, m, j);
      }
    }

    lemma BlamedUse(n: nat, start: Kind, reason: Reason, m: Memory, s: nat, at: nat, j: nat, k: Kind)
      requires First() <= n < |headers| && AllAdmitted(n, start) && at == s + StepsTo(n, start) && AllDone(s, at)
      requires k == KindAt(n + 1, start) && ValidHeader(headers[n]) && FsblOwned(headers[n]) && !StopsAt(n, start)
      requires AddressOf(headers[n], k) == Good && Failed(n, k, reason, m, at, j)
      requires !reason.InvalidHeader? && !reason.InvalidLoadAddress? && !reason.HeaderFail? && !reason.AuthHeaderFail?
      ensures Blamed(n, start, reason, m, s, j)
    {
      hide AllAdmitted, ValidHeader, StopsAt, StepsTo, AllDone, AddressOf, KindAt, FsblOwned, Failed;
    }

    lemma FailedReason(p: nat, k: Kind, reason: Reason, m: Memory, i: nat, j: nat)
      requires p < |headers| && Failed(p, k, reason, m, i, j)
      ensures !reason.InvalidHeader? && !reason.InvalidLoadAddress? && !reason.HeaderFail? && !reason.AuthHeaderFail?
    {
      hide Seen;
    }

    /** The partitions of the table: up to the first terminator, of which there must
        be one, and with something behind the boot loader's own. */
    predicate Counts(n: nat)
      requires |headers| == MAX_PARTITIONS
    {
      && n < MAX_PARTITIONS && IsTerminator(headers[n]) && (forall i :: 0 <= i < n ==> !IsTerminator(headers[i]))
      && (env.mmc || n > 1)
    }

    /** The operations that read the header table, and check it where that is asked for. */
    function TableSteps(): nat { if env.authenticateHeaders then 2 else 1 }

    /** An image that must load, from hardware operation s on: its header table can be
        read and is signed where asked for, and its partitions are sound. */
    ghost predicate SoundImage(start: Kind, s: nat)
      requires |headers| == MAX_PARTITIONS
    {
      && AllDone(s, s + TableSteps()) && (env.authenticateHeaders ==> env.rsaSupport)
      && exists n :: Counts(n) && Sound(n, start, s + TableSteps())
    }

    /** Such an image: behind the boot loader one plain application, then the terminator. */
    lemma OneAppIsSound(s: nat)
      requires |headers| == MAX_PARTITIONS && !env.mmc && !env.authenticateHeaders
      requires env.ddrStart <= 0x10_0000 <= env.ddrEnd && env.ddrStart > 0
      requires !IsTerminator(headers[0]) && headers[1] == SMALL_APP && IsTerminator(headers[2])
      requires forall n :: s <= n ==> outcomes(n)
      ensures SoundImage(Neither, s)
    {
      SmallAppIsValid();
      assert PsBit(SMALL_APP) && !PlBit(SMALL_APP) && FsblOwned(SMALL_APP) && !Verified(SMALL_APP);
      assert !IsTerminator(headers[1]);
      assert Counts(2);
      hide ValidHeader, IsTerminator, StepCount;
      assert KindAt(1, Neither) == Neither && KindAt(2, Neither) == Ps && !AppBefore(1);
      NothingToPass(1);
      hide Passed;
      assert Admitted(1, Neither);
      assert Loads(2, 2, Neither, s + TableSteps()) && ChecksSeeFlash(2, Neither);
    }

    lemma OneCount(total: nat)
      requires |headers| == MAX_PARTITIONS && total <= MAX_PARTITIONS
      requires forall i :: 0 <= i < total ==> !IsTerminator(headers[i])
      requires total < MAX_PARTITIONS ==> IsTerminator(headers[total])
      ensures forall n :: Counts(n) ==> n == total
    {
      hide IsTerminator;
    }

    lemma BlamedReasons(start: Kind, s: nat)
      ensures forall n, reason, m, j :: First() <= n < |headers| && Blamed(n, start, reason, m, s, j) ==>
                reason != HeaderFail && reason != AuthHeaderFail
    {
      hide AllDone, AllAdmitted, Failed, ValidHeader, StopsAt, AddressOf;
    }

    /** LoadBootImage, given the header table of the image. */
    method LoadBootImage() returns (o: Outcome, count: nat, total: nat)
      requires |headers| == MAX_PARTITIONS && !(psFlag && plFlag)
      modifies this
      ensures o.Loaded? ==>
                && Counts(total) && First() <= count <= total
                && (env.authenticateHeaders ==> env.rsaSupport)
                && Done(count, old(Kind()), old(Now()), Now()) && o.execAddress == Exec(count, old(Kind()))
                && (count == total || StopsAt(count, old(Kind())))
      ensures o.Fallback? ==>
                || fabric == old(fabric)
                || (&& Counts(total) && First() <= count < total
                    && (|| FabricIs(old(fabric), Bitstreams(count, old(Kind())), fabric)
                        || FabricIs(old(fabric), Bitstreams(count + 1, old(Kind())), fabric)))
      ensures o.Loaded? ==>
                && outcomes(old(steps)) && (env.authenticateHeaders ==> outcomes(old(steps) + 1))
                && Loads(count, total, old(Kind()), old(steps) + TableSteps())
      ensures o == Fallback(HeaderFail) ==> !outcomes(old(steps)) || forall n :: !Counts(n)
      ensures o == Fallback(AuthHeaderFail) ==>
                env.authenticateHeaders && (!env.rsaSupport || !outcomes(old(steps) + 1))
      ensures o.Fallback? && o.reason != HeaderFail && o.reason != AuthHeaderFail ==>
                && Counts(total) && First() <= count < total
                && Blamed(count, old(Kind()), o.reason, memory, old(steps) + TableSteps(), steps)
      ensures SoundImage(old(Kind()), old(steps)) ==> o.Loaded?
    {
      hide Done, StopsAt, Exec, FabricIs, Bitstreams, Loads, Blamed, Sound, IsTerminator;
      ghost var start, s := Kind(), steps;
      BlamedReasons(start, s + TableSteps());
      applicationFlag, count, total := false, 0, 0;
      var ok := Attempt();
      if !ok {
        return Fallback(HeaderFail), count, total;
      }
      total := GetPartitionCount(headers);
      OneCount(total);
      if total >= MAX_PARTITIONS || (!env.mmc && total <= 1) {
        return Fallback(HeaderFail), count, total;
      }
      if env.authenticateHeaders {
        if !env.rsaSupport {
          return Fallback(AuthHeaderFail), count, total;
        }
        ok := Attempt();
        if !ok {
          return Fallback(AuthHeaderFail), count, total;
        }
      }
      o, count := LoadPartitions(total);
    }

    /** An application partition was loaded before n. */
    predicate AnyApp(n: nat, start: Kind)
      requires First() <= n <= |headers|
    {
      exists i :: First() <= i < n && Is(i, start, Ps)
    }

    lemma Beginning(start: Kind, w: World)
      requires First() <= |headers|
      ensures Done(First(), start, w, w) && KindAt(First(), start) == start && !AppBefore(First())
      ensures !AnyApp(First(), start) && Exec(First(), start) == 0
    {
    }

    lemma DoneFabric(n: nat, start: Kind, w: World, e: World)
      requires First() <= n <= |headers| && Done(n, start, w, e)
      ensures FabricIs(w.fabric, Bitstreams(n, start), e.fabric)
    {
    }

    /** How the specification goes on with partition n. */
    lemma NextKind(n: nat, start: Kind)
      requires First() <= n < |headers|
      ensures KindAt(n + 1, start) ==
                if FsblOwned(headers[n]) then KindOf(headers[n], KindAt(n, start)) else KindAt(n, start)
      ensures AppBefore(n + 1) <==> AppBefore(n) || (FsblOwned(headers[n]) && PsBit(headers[n]))
      ensures AnyApp(n + 1, start) <==> AnyApp(n, start) || Is(n, start, Ps)
      ensures Exec(n + 1, start) ==
                if AnyApp(n, start) || !Is(n, start, Ps) then Exec(n, start) else ExecAddr(headers[n])
      ensures StopsAt(n, start) <==>
                && FsblOwned(headers[n])
                && (|| (PlBit(headers[n]) && AppBefore(n))
                    || AddressOf(headers[n], KindAt(n + 1, start)) == End)
    {
    }

    lemma UsedHalf(n: nat, start: Kind, w: World, e: World, g: seq<Bitstream>)
      requires First() <= n < |headers| && Done(n, start, w, e) && FsblOwned(headers[n])
      requires g == e.fabric || (KindAt(n + 1, start) == Pl && LoadedOnce(n, e.memory, e.fabric, g) && Passed(n))
      ensures FabricIs(w.fabric, Bitstreams(n, start), g) || FabricIs(w.fabric, Bitstreams(n + 1, start), g)
    {
      hide FabricIs, LoadedOnce, Complete, Passed;
      if g != e.fabric {
        FabricMore(n, e.memory, w.fabric, Bitstreams(n, start), e.fabric, g);
      }
    }

    /** Each bitstream is programmed once, in the order of the headers. */
    lemma {:induction false} BitstreamsOnce(n: nat, start: Kind)
      requires First() <= n <= |headers|
      ensures forall p :: p in Bitstreams(n, start) <==> First() <= p < n && Is(p, start, Pl)
      ensures Ascending(Bitstreams(n, start))
    {
      hide KindAt, Ascending, Is;
      if n > First() {
        var before := Bitstreams(n - 1, start);
        BitstreamsOnce(n - 1, start);
        Lists(n - 1, start);
        hide Bitstreams;
        AscendingMore(before, n - 1);
      } else {
        AscendingOne(0);
      }
    }

    /** No bitstream is programmed once an application partition has been met. */
    lemma {:induction false} NoBitstreamAfterApp(n: nat, start: Kind)
      requires First() <= n <= |headers| && forall i :: First() <= i < n ==> !StopsAt(i, start)
      ensures AppBefore(n) ==> KindAt(n, start) == Ps
      ensures forall p :: First() <= p < n && AppBefore(p) ==> !Is(p, start, Pl)
    {
      if n > First() {
        NoBitstreamAfterApp(n - 1, start);
        NextKind(n - 1, start);
        assert !StopsAt(n - 1, start);
      }
    }

    /** The result is the execution address of the first application. */
    lemma {:induction false} ExecIsFirst(n: nat, start: Kind, i: nat)
      requires First() <= i < n <= |headers| && Is(i, start, Ps) && !AnyApp(i, start)
      ensures Exec(n, start) == ExecAddr(headers[i])
    {
      NextKind(n - 1, start);
      if i < n - 1 {
        ExecIsFirst(n - 1, start, i);
        assert AnyApp(n - 1, start);
      }
    }
  }
}
