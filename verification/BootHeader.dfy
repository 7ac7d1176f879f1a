/** Partition headers of a boot image: their fields and the checks on them. */
module BootHeader {
  import opened CTypes

  const WORDS := 16            // PARTITION_HDR_WORD_COUNT
  const CHECKSUM := 15         // PARTITION_HDR_CHECKSUM_WORD_COUNT
  const MAX_PARTITIONS := 14   // MAX_PARTITION_NUMBER
  const MAX_IMAGE_WORDS := 0x4000_0000

  type Header = s: seq<u32> | |s| == WORDS witness seq(WORDS, _ => 0)

  function ImageWords(h: Header): u32 { h[0] }

  function DataWords(h: Header): u32 { h[1] }

  function PartitionWords(h: Header): u32 { h[2] }

  function LoadAddr(h: Header): u32 { h[3] }

  function ExecAddr(h: Header): u32 { h[4] }

  function Attr(h: Header): u32 { h[6] }

  predicate PsBit(h: Header) { Attr(h) / 0x10 % 2 == 1 }

  predicate PlBit(h: Header) { Attr(h) / 0x20 % 2 == 1 }

  predicate Checksummed(h: Header) { Attr(h) / 0x1000 % 8 != 0 }

  predicate Signed(h: Header) { Attr(h) / 0x8000 % 2 == 1 }

  predicate FsblOwned(h: Header) { Attr(h) / 0x1_0000 % 4 == 0 }

  /** An encrypted partition has different image and data lengths. */
  predicate Encrypted(h: Header) { DataWords(h) != ImageWords(h) }

  predicate Verified(h: Header) { Checksummed(h) || Signed(h) }

  // ---- the fields as they lie in the header ----

  /** A partition header field by field, in the order in which they lie in flash. */
  datatype PartHeader = PartHeader(
    imageWordLen: u32, dataWordLen: u32, partitionWordLen: u32, loadAddr: u32, execAddr: u32, partitionStart: u32,
    attributes: Attributes, sectionCount: u32, checkSumOffset: u32, pad: u32, acOffset: u32, pads: seq<u32>,
    checkSum: u32)
  {
    predicate Valid() { |pads| == 4 && attributes.Valid() }

    function Words(): Header
      requires Valid()
    {
      [imageWordLen, dataWordLen, partitionWordLen, loadAddr, execAddr, partitionStart]
      + [attributes.Word(), sectionCount, checkSumOffset, pad, acOffset] + pads + [checkSum]
    }
  }

  /** The attribute word: PS and PL bit behind four bits, then from bit 12 on three
      bits of checksum type, the signature bit and two bits of owner. */
  datatype Attributes = Attributes(low: nat, ps: bool, pl: bool, middle: nat, checksum: nat, signed: bool, owner: nat,
                                   high: nat)
  {
    predicate Valid() { low < 16 && middle < 64 && checksum < 8 && owner < 4 && high < 0x4000 }

    function Word(): u32
      requires Valid()
    {
      low + 0x10 * Bit(ps) + 0x20 * Bit(pl) + 0x40 * middle + 0x1000 * checksum + 0x8000 * Bit(signed)
      + 0x1_0000 * owner + 0x4_0000 * high
    }
  }

  function Bit(b: bool): (n: nat)
    ensures n <= 1
  {
    if b then 1 else 0
  }

  /** The loader finds each field where it lies. */
  lemma FieldsInPlace(p: PartHeader)
    requires p.Valid()
    ensures var h := p.Words();
            && ImageWords(h) == p.imageWordLen && DataWords(h) == p.dataWordLen
            && PartitionWords(h) == p.partitionWordLen && LoadAddr(h) == p.loadAddr && ExecAddr(h) == p.execAddr
            && Attr(h) == p.attributes.Word() && h[CHECKSUM] == p.checkSum
            && PsBit(h) == p.attributes.ps && PlBit(h) == p.attributes.pl
            && Checksummed(h) == (p.attributes.checksum != 0) && Signed(h) == p.attributes.signed
            && FsblOwned(h) == (p.attributes.owner == 0)
  {
    hide Attributes.Word;
    AttributeBits(p.attributes);
  }

  /** A field of width m behind `below`, which is less than `unit`. */
  lemma FieldAt(w: nat, below: nat, unit: nat, field: nat, m: nat, above: nat)
    requires w == below + unit * (field + m * above) && below < unit && field < m
    ensures w / unit % m == field
  {
    QuotientIs(w, unit, field + m * above);
    QuotientIs(field + m * above, m, above);
  }

  lemma AttributeBits(a: Attributes)
    requires a.Valid()
    ensures a.Word() / 0x10 % 2 == Bit(a.ps) && a.Word() / 0x20 % 2 == Bit(a.pl)
    ensures a.Word() / 0x1000 % 8 == a.checksum && a.Word() / 0x8000 % 2 == Bit(a.signed)
    ensures a.Word() / 0x1_0000 % 4 == a.owner
  {
    hide Bit;
    var w, ps, pl, signed := a.Word(), Bit(a.ps), Bit(a.pl), Bit(a.signed);
    var owners := a.owner + 4 * a.high;
    var checks := a.checksum + 8 * (signed + 2 * owners);
    FieldAt(w, a.low, 0x10, ps, 2, pl + 2 * (a.middle + 64 * checks));
    FieldAt(w, a.low + 0x10 * ps, 0x20, pl, 2, a.middle + 64 * checks);
    FieldAt(w, a.low + 0x10 * ps + 0x20 * pl + 0x40 * a.middle, 0x1000, a.checksum, 8, signed + 2 * owners);
    FieldAt(w, a.low + 0x10 * ps + 0x20 * pl + 0x40 * a.middle + 0x1000 * a.checksum, 0x8000, signed, 2, owners);
    FieldAt(w, a.low + 0x10 * ps + 0x20 * pl + 0x40 * a.middle + 0x1000 * a.checksum + 0x8000 * signed, 0x1_0000,
            a.owner, 4, a.high);
  }

  // ---- the checks ----

  function Sum(h: seq<u32>): nat {
    if h == [] then 0 else Sum(h[..|h| - 1]) + h[|h| - 1]
  }

  /** ValidatePartitionHeaderChecksum: all sixteen words add up to all ones. */
  method ValidateChecksum(h: Header) returns (ok: bool)
    ensures ok <==> Sum(h) % TWO32 == ALL_ONES
  {
    var checksum: u32 := 0;
    for count := 0 to CHECKSUM
      invariant checksum == Sum(h[..count]) % TWO32
    {
      assert h[..count + 1][..count] == h[..count];
      ChecksumLaw(Sum(h[..count]), h[count]);
      checksum := Wrap32(checksum as int + h[count] as int);
    }
    assert h[..CHECKSUM + 1] == h;
    ChecksumLaw(Sum(h[..CHECKSUM]), h[CHECKSUM]);
    hide Wrap32;
    checksum := ALL_ONES - checksum;
    ok := h[CHECKSUM] == checksum;
  }

  /** A header with one changed word fails the check. */
  lemma OneWordChanged(h: Header, i: nat, w: u32)
    requires i < WORDS && w != h[i] && Sum(h) % TWO32 == ALL_ONES
    ensures Sum(h[i := w]) % TWO32 != ALL_ONES
  {
    SumUpdate(h, i, w);
    var d := w - h[i];
    assert -TWO32 < d < TWO32 && d != 0;
  }

  lemma {:induction false} SumUpdate(h: seq<u32>, i: nat, w: u32)
    requires i < |h|
    ensures Sum(h[i := w]) == Sum(h) - h[i] + w
    decreases |h|
  {
    var n := |h| - 1;
    if i < n {
      SumUpdate(h[..n], i, w);
      assert h[i := w][..n] == h[..n][i := w];
    } else {
      assert h[i := w][..n] == h[..n];
    }
  }

  /** The last header of a table: zeros and a checksum of all ones. */
  predicate IsTerminator(h: Header) { h[CHECKSUM] == ALL_ONES && forall i :: 0 <= i < CHECKSUM ==> h[i] == 0 }

  /** IsLastPartition */
  method IsLastPartition(h: Header) returns (last: bool)
    ensures last == IsTerminator(h)
  {
    if h[CHECKSUM] != ALL_ONES {
      return false;
    }
    for index := 0 to CHECKSUM
      invariant forall i :: 0 <= i < index ==> h[i] == 0
    {
      if h[index] != 0 {
        return false;
      }
    }
    last := true;
  }

  /** The terminator would pass as a valid header: only the count keeps it out. */
  lemma TerminatorIsValid(h: Header)
    requires IsTerminator(h)
    ensures ValidHeader(h)
  {
    ZeroSum(h[..CHECKSUM]);
  }

  lemma {:induction false} ZeroSum(s: seq<u32>)
    requires forall i :: 0 <= i < |s| ==> s[i] == 0
    ensures Sum(s) == 0
  {
    if s != [] {
      ZeroSum(s[..|s| - 1]);
    }
  }

  /** GetPartitionCount: the place of the first terminator, if there is one. */
  method GetPartitionCount(t: seq<Header>) returns (count: nat)
    requires |t| == MAX_PARTITIONS
    ensures count <= MAX_PARTITIONS && forall i :: 0 <= i < count ==> !IsTerminator(t[i])
    ensures count < MAX_PARTITIONS ==> IsTerminator(t[count])
  {
    count := 0;
    while count < MAX_PARTITIONS
      invariant count <= MAX_PARTITIONS && forall i :: 0 <= i < count ==> !IsTerminator(t[i])
    {
      var last := IsLastPartition(t[count]);
      if last {
        break;
      }
      count := count + 1;
    }
  }

  predicate IsEmpty(h: Header) { forall i :: 0 <= i < WORDS ==> h[i] == 0 }

  predicate ValidHeader(h: Header) {
    !IsEmpty(h) && Sum(h) % TWO32 == ALL_ONES && ImageWords(h) <= MAX_IMAGE_WORDS
  }

  /** What the three tests come to: the first never decides, because an empty header
      fails the second, and the third lets through the lengths whose byte count fits 32
      bits, and one more, for which it wraps to zero. */
  lemma ValidExactly(h: Header)
    ensures ValidHeader(h) <==>
              && Sum(h) % TWO32 == ALL_ONES
              && (Wrap32(4 * (ImageWords(h) as int)) == 4 * ImageWords(h) || ImageWords(h) == 0x4000_0000)
    ensures ImageWords(h) == 0x4000_0000 ==> Wrap32(4 * (ImageWords(h) as int)) == 0
  {
    if IsEmpty(h) {
      ZeroSum(h);
    }
    hide Sum;
  }

  /** ValidateHeader */
  method ValidateHeader(h: Header) returns (ok: bool)
    ensures ok == ValidHeader(h)
  {
    var empty := true;
    for index := 0 to WORDS
      invariant empty <==> forall i :: 0 <= i < index ==> h[i] == 0
    {
      if h[index] != 0 {
        empty := false;
      }
    }
    if empty {
      return false;
    }
    var valid := ValidateChecksum(h);
    ok := valid && h[0] <= MAX_IMAGE_WORDS;
  }
}
