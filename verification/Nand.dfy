/** The boot loader's NAND reader: a device with bad blocks read as if it were
    the plain concatenation of its good ones. */
module Nand {
  import opened CTypes

  datatype Block = Block(bad: bool, data: seq<bv8>)

  datatype Device = Device(blockSize: nat, blocks: seq<Block>)
  {
    /** The device size is a 32-bit number. */
    ghost predicate Valid() {
      && blockSize > 0 && Size() < TWO32
      && forall b :: 0 <= b < |blocks| ==> |blocks[b].data| == blockSize
    }

    function Size(): nat { |blocks| * blockSize }

    predicate Good(b: nat) { b < |blocks| && !blocks[b].bad }

    /** The bytes of the good ones among the first n blocks. */
    function GoodTo(n: nat): seq<bv8>
      requires n <= |blocks|
    {
      if n == 0 then [] else GoodTo(n - 1) + (if blocks[n - 1].bad then [] else blocks[n - 1].data)
    }

    /** What the reader presents: the good blocks and nothing else. */
    function Contents(): seq<bv8> { GoodTo(|blocks|) }

    /** Offset & ~(BlockSize - 1), in blocks, and Offset & (BlockSize - 1). */
    function BlockAt(offset: nat): nat
      requires blockSize > 0
    {
      FloorDiv(offset, blockSize)
    }

    function Within(offset: nat): (w: nat)
      requires blockSize > 0
      ensures w < blockSize
    {
      offset % blockSize
    }

    predicate GoodAt(offset: nat)
      requires blockSize > 0
    {
      Good(BlockAt(offset))
    }

    /** The place in Contents() of a physical offset; a bad block has no extent. */
    ghost function Place(offset: nat): nat
      requires blockSize > 0 && offset <= Size()
    {
      BlockOf(this, offset);
      |GoodTo(BlockAt(offset))| + if GoodAt(offset) then Within(offset) else 0
    }
  }

  datatype Outcome =
    | Success
    | Failure
    // a block outside the device would be examined
    | OffDevice

  lemma BlockOf(d: Device, offset: nat)
    requires d.blockSize > 0 && offset <= d.Size()
    ensures 0 <= offset / d.blockSize <= |d.blocks|
    ensures offset < d.Size() ==> offset / d.blockSize < |d.blocks|
  {
    var b, n := offset / d.blockSize, |d.blocks|;
    DivBounds(offset, d.blockSize);
    if offset == d.Size() {
      QuotientIs(offset, d.blockSize, n);
    } else {
      Cancel(d.blockSize, b, n);
    }
  }

  /** An offset counted from the start of block b. */
  lemma Inside(d: Device, b: nat, within: nat)
    requires d.blockSize > 0 && within < d.blockSize
    ensures (b * d.blockSize + within) / d.blockSize == b && (b * d.blockSize + within) % d.blockSize == within
  {
    QuotientIs(b * d.blockSize + within, d.blockSize, b);
  }

  lemma PlaceIn(d: Device, b: nat, within: nat)
    requires d.Valid() && b < |d.blocks| && within < d.blockSize
    ensures b * d.blockSize + within < d.Size()
    ensures d.Place(b * d.blockSize + within) == |d.GoodTo(b)| + if d.Good(b) then within else 0
  {
    MulMonotone(d.blockSize, b + 1, |d.blocks|);
    Distribute(d.blockSize, b, 1);
    Inside(d, b, within);
  }

  lemma PlaceAtBlock(d: Device, b: nat)
    requires d.Valid() && b <= |d.blocks|
    ensures b * d.blockSize <= d.Size() && d.Place(b * d.blockSize) == |d.GoodTo(b)|
  {
    MulMonotone(d.blockSize, b, |d.blocks|);
    Inside(d, b, 0);
  }

  lemma GoodStep(d: Device, b: nat)
    requires d.Valid() && b < |d.blocks|
    ensures d.GoodTo(b + 1) == d.GoodTo(b) + if d.Good(b) then d.blocks[b].data else []
    ensures |d.GoodTo(b + 1)| == |d.GoodTo(b)| + if d.Good(b) then d.blockSize else 0
    ensures (b + 1) * d.blockSize == b * d.blockSize + d.blockSize <= d.Size()
  {
    Distribute(d.blockSize, b, 1);
    MulMonotone(d.blockSize, b + 1, |d.blocks|);
  }

  lemma {:induction false} GoodPrefix(d: Device, a: nat, b: nat)
    requires d.Valid() && a <= b <= |d.blocks|
    ensures d.GoodTo(a) <= d.GoodTo(b) && |d.GoodTo(b)| <= b * d.blockSize
  {
    if a < b {
      GoodPrefix(d, a, b - 1);
      GoodStep(d, b - 1);
    } else if a > 0 {
      GoodPrefix(d, a - 1, a - 1);
      GoodStep(d, a - 1);
    }
  }

  /** The bytes of a good block are found at its place. */
  lemma BlockInContents(d: Device, b: nat, k: nat)
    requires d.Valid() && d.Good(b) && k < d.blockSize
    ensures |d.GoodTo(b)| + k < |d.Contents()| && d.Contents()[|d.GoodTo(b)| + k] == d.blocks[b].data[k]
  {
    hide Device.GoodTo;
    GoodStep(d, b);
    GoodPrefix(d, b + 1, |d.blocks|);
    PrefixAt(d.GoodTo(b), d.blocks[b].data, d.Contents(), k);
  }

  lemma PrefixAt<T>(a: seq<T>, b: seq<T>, whole: seq<T>, k: nat)
    requires a + b <= whole && k < |b|
    ensures whole[|a| + k] == b[k]
  {
    assert (a + b)[|a| + k] == b[k];
  }

  // ---- the length including bad blocks ----

  /** XNandPs_CalculateLength, which stops at the end of the device. */
  function ActLen(d: Device, offset: nat, length: int): (n: nat)
    requires d.Valid() && offset <= d.Size()
    ensures offset + n <= d.Size()
    decreases d.Size() - offset
  {
    if length <= 0 || offset >= d.Size() then 0
    else
      NextBlock(d, offset);
      var cur := d.blockSize - d.Within(offset);
      cur + ActLen(d, offset + cur, if d.GoodAt(offset) then length - cur else length)
  }

  /** Going on inside the current block, up to its end. */
  lemma NextBlock(d: Device, offset: nat)
    requires d.Valid() && offset < d.Size()
    ensures var cur := d.blockSize - d.Within(offset);
            && d.BlockAt(offset) < |d.blocks| && offset + cur <= d.Size() && d.Within(offset + cur) == 0
            && d.Place(offset + cur) == d.Place(offset) + if d.GoodAt(offset) then cur else 0
  {
    var b, cur := d.BlockAt(offset), d.blockSize - d.Within(offset);
    BlockOf(d, offset);
    Parts(d, offset);
    PlaceParts(d, offset);
    GoodStep(d, b);
    PlaceAtBlock(d, b + 1);
    Inside(d, b + 1, 0);
    hide Device.Place, Device.GoodTo, Device.BlockAt;
    assert offset + cur == (b + 1) * d.blockSize;
  }

  lemma Parts(d: Device, offset: nat)
    requires d.blockSize > 0
    ensures offset == d.BlockAt(offset) * d.blockSize + d.Within(offset)
  {
  }

  lemma PlaceParts(d: Device, offset: nat)
    requires d.blockSize > 0 && offset <= d.Size()
    ensures d.BlockAt(offset) <= |d.blocks|
    ensures d.Place(offset) == |d.GoodTo(d.BlockAt(offset))| + if d.GoodAt(offset) then d.Within(offset) else 0
  {
    BlockOf(d, offset);
  }

  lemma StayInBlock(d: Device, offset: nat, n: nat)
    requires d.Valid() && offset < d.Size() && n < d.blockSize - d.Within(offset)
    ensures offset + n < d.Size() && d.BlockAt(offset + n) == d.BlockAt(offset)
    ensures d.Place(offset + n) == d.Place(offset) + if d.GoodAt(offset) then n else 0
  {
    NextBlock(d, offset);
    DivBounds(offset, d.blockSize);
    QuotientIs(offset + n, d.blockSize, d.BlockAt(offset));
  }

  method CalculateLength(d: Device, offset0: u32, length: u32) returns (o: Outcome, actLen: u32)
    requires d.Valid() && offset0 <= d.Size()
    ensures o == if length > 0 && offset0 == d.Size() then OffDevice else Success
    ensures o == Success ==> actLen == ActLen(d, offset0, length)
  {
    hide Device.Place, Device.GoodTo, Device.Size, Device.Within, Device.BlockAt, ActLen;
    var offset, tempLen := offset0, 0;
    actLen := 0;
    o := Success;
    while tempLen < length
      invariant tempLen <= actLen && offset == offset0 + actLen <= d.Size()
      invariant tempLen < length ==> offset == offset0 || offset < d.Size()
      invariant offset0 == d.Size() ==> offset == offset0 && tempLen == 0
      invariant ActLen(d, offset0, length) == actLen + ActLen(d, offset, length - tempLen)
      decreases d.Size() - offset
    {
      if offset == d.Size() {
        return OffDevice, 0;
      }
      NextBlock(d, offset);
      ActStep(d, offset, length - tempLen);
      var curBlockLen, curBlock := d.blockSize - d.Within(offset), d.BlockAt(offset);
      if !d.blocks[curBlock].bad {
        tempLen := tempLen + curBlockLen;
      }
      actLen := actLen + curBlockLen;
      offset := offset + curBlockLen;
      if offset >= d.Size() {
        break;
      }
    }
    ActStep(d, offset, length - tempLen);
  }

  lemma ActStep(d: Device, offset: nat, length: int)
    requires d.Valid() && offset <= d.Size()
    ensures length <= 0 || offset == d.Size() ==> ActLen(d, offset, length) == 0
    ensures length > 0 && offset < d.Size() ==>
              var cur := d.blockSize - d.Within(offset);
              && offset + cur <= d.Size()
              && ActLen(d, offset, length) ==
                   cur + ActLen(d, offset + cur, if d.GoodAt(offset) then length - cur else length)
  {
    if offset < d.Size() {
      NextBlock(d, offset);
    }
  }

  /** The computed length ends at a block boundary and covers the wanted bytes, or
      reaches the end of the device. */
  lemma {:induction false} ActLenCovers(d: Device, offset: nat, length: nat)
    requires d.Valid() && length > 0 && offset < d.Size()
    ensures var e := offset + ActLen(d, offset, length);
            && e <= d.Size() && d.Within(e) == 0
            && (d.Place(e) >= d.Place(offset) + length || e == d.Size())
    decreases d.Size() - offset
  {
    hide Device.Place, Device.GoodTo, Device.Size, Device.Within, Device.BlockAt, ActLen;
    NextBlock(d, offset);
    ActStep(d, offset, length);
    var cur := d.blockSize - d.Within(offset);
    var rest := if d.GoodAt(offset) then length - cur else length;
    ActStep(d, offset + cur, rest);
    if offset + cur < d.Size() && rest > 0 {
      ActLenCovers(d, offset + cur, rest);
    }
  }

  lemma {:induction false} PlaceMonotone(d: Device, x: nat, y: nat)
    requires d.Valid() && x <= y <= d.Size()
    ensures d.Place(x) <= d.Place(y)
    decreases y - x
  {
    hide Device.Place, Device.GoodTo, Device.Size, Device.Within, Device.BlockAt;
    if x < y {
      NextBlock(d, x);
      var cur := d.blockSize - d.Within(x);
      if x + cur <= y {
        PlaceMonotone(d, x + cur, y);
      } else {
        StayInBlock(d, x, y - x);
      }
    }
  }

  // ---- the reader ----

  /** The search for the physical offset: good blocks are counted until they
      cover the source address. */
  ghost predicate Counted(d: Device, source: nat, tmp: nat, blockCount: nat, badBlocks: nat) {
    && d.Valid() && blockCount <= |d.blocks|
    && tmp == |d.GoodTo(blockCount)| && blockCount * d.blockSize == tmp + badBlocks * d.blockSize
    && (tmp >= source ==> tmp < source + d.blockSize && (tmp > 0 ==> blockCount > 0 && d.Good(blockCount - 1)))
    && (tmp == 0 && source == 0 ==> badBlocks == 0 && blockCount == 0)
  }

  lemma CountedStart(d: Device, source: nat)
    requires d.Valid()
    ensures Counted(d, source, 0, 0, 0)
  {
  }

  lemma BlocksFit(d: Device)
    requires d.Valid()
    ensures |d.blocks| < TWO32
  {
    MulMonotone(|d.blocks|, 1, d.blockSize);
  }

  lemma CountedBad(d: Device, source: nat, tmp: nat, blockCount: nat, badBlocks: nat)
    requires Counted(d, source, tmp, blockCount, badBlocks) && tmp < source
    requires blockCount < |d.blocks| && d.blocks[blockCount].bad
    ensures Counted(d, source, tmp, blockCount + 1, badBlocks + 1)
  {
    GoodStep(d, blockCount);
    Distribute(d.blockSize, badBlocks, 1);
  }

  lemma CountedGood(d: Device, source: nat, tmp: nat, blockCount: nat, badBlocks: nat)
    requires Counted(d, source, tmp, blockCount, badBlocks) && tmp < source && d.Good(blockCount)
    ensures Counted(d, source, tmp + d.blockSize, blockCount + 1, badBlocks)
    ensures tmp + d.blockSize <= (blockCount + 1) * d.blockSize <= d.Size()
  {
    GoodStep(d, blockCount);
    MulMonotone(d.blockSize, 0, badBlocks);
  }

  lemma CountedOut(d: Device, source: nat, tmp: nat, badBlocks: nat)
    requires Counted(d, source, tmp, |d.blocks|, badBlocks)
    ensures tmp == |d.Contents()|
  {
  }

  lemma CountedPlace(d: Device, source: nat, tmp: nat, blockCount: nat, badBlocks: nat)
    requires Counted(d, source, tmp, blockCount, badBlocks) && tmp >= source
    ensures 0 <= badBlocks * d.blockSize
    ensures source + badBlocks * d.blockSize <= d.Size() && d.Place(source + badBlocks * d.blockSize) == source
  {
    MulMonotone(d.blockSize, 0, badBlocks);
    if tmp == source {
      PlaceAtBlock(d, blockCount);
    } else {
      GoodStep(d, blockCount - 1);
      PlaceIn(d, blockCount - 1, d.blockSize - (tmp - source));
    }
  }

  /** One read of the NAND driver: a piece of one good block. */
  method Read(d: Device, offset: nat, len: nat, dest: array<bv8>, at: nat)
    requires d.Valid() && offset < d.Size() && d.GoodAt(offset)
    requires 0 < len <= d.blockSize - d.Within(offset) && at + len <= dest.Length
    modifies dest
    ensures d.Place(offset) + len <= |d.Contents()|
    ensures dest[at..at + len] == d.Contents()[d.Place(offset)..d.Place(offset) + len]
    ensures dest[..at] == old(dest[..at]) && dest[at + len..] == old(dest[at + len..])
  {
    hide Device.GoodTo, Device.Size, Device.Within, Device.BlockAt;
    var b, within := d.BlockAt(offset), d.Within(offset);
    BlockInContents(d, b, within + len - 1);
    forall k | within <= k < within + len
      ensures d.Place(offset) + k - within < |d.Contents()|
      ensures d.Contents()[d.Place(offset) + k - within] == d.blocks[b].data[k]
    {
      BlockInContents(d, b, k);
    }
    forall i | 0 <= i < len {
      dest[at + i] := d.blocks[b].data[within + i];
    }
  }

  /** The reads a transfer makes: each in one good block, all of them between the
      first offset and the end that XNandPs_CalculateLength has computed. */
  datatype Piece = Piece(offset: nat, len: nat)

  ghost predicate PieceOk(d: Device, first: nat, end: nat, p: Piece) {
    && d.blockSize > 0 && first <= p.offset && p.offset + p.len <= end <= d.Size()
    && d.GoodAt(p.offset) && p.len <= d.blockSize - d.Within(p.offset)
  }

  ghost predicate PiecesOk(d: Device, first: nat, length: nat, pieces: seq<Piece>)
    requires d.Valid() && first <= d.Size()
  {
    forall p :: p in pieces ==> PieceOk(d, first, first + ActLen(d, first, length), p)
  }

  lemma PieceInside(d: Device, first: nat, offset: nat, length: nat, bytesLeft: nat, len: nat)
    requires d.Valid() && first <= offset < d.Size() && d.GoodAt(offset)
    requires 0 < bytesLeft <= length && d.Place(offset) == d.Place(first) + length - bytesLeft
    requires len <= d.blockSize - d.Within(offset)
    ensures forall ps :: PiecesOk(d, first, length, ps) ==> PiecesOk(d, first, length, ps + [Piece(offset, len)])
  {
    hide Device.Place, Device.GoodTo, Device.Size, Device.Within, Device.BlockAt, ActLen;
    ActLenCovers(d, first, length);
    var e := first + ActLen(d, first, length);
    NextBlock(d, offset);
    if e <= offset {
      PlaceMonotone(d, e, offset);
    } else {
      NoBoundaryInside(d, offset, e);
    }
    assert PieceOk(d, first, e, Piece(offset, len));
    hide PieceOk;
  }

  lemma NoPieces(d: Device, first: nat, length: nat)
    requires d.Valid() && first <= d.Size()
    ensures PiecesOk(d, first, length, [])
  {
  }

  lemma NoBoundaryInside(d: Device, offset: nat, e: nat)
    requires d.Valid() && offset < d.Size() && d.Within(e) == 0 && offset < e
    ensures e >= offset + d.blockSize - d.Within(offset)
  {
    var q, r := d.BlockAt(offset), d.BlockAt(e);
    DivBounds(offset, d.blockSize);
    DivBounds(e, d.blockSize);
    Cancel(d.blockSize, q, r);
    MulMonotone(d.blockSize, q + 1, r);
    Distribute(d.blockSize, q, 1);
  }

  /** The first loop of NandAccess: where the source address lies in the device. */
  method Locate(d: Device, sourceAddress: u32) returns (o: Outcome, offset: u32)
    requires d.Valid()
    ensures o == if sourceAddress <= |d.Contents()| then Success else OffDevice
    ensures o == Success ==> offset <= d.Size() && d.Place(offset) == sourceAddress
  {
    hide Device.Place, Device.GoodTo, Device.Size, Device.BlockAt, Device.Within, Device.Contents, Counted;
    var tmpAddress: u32, blockCount: u32, badBlocks: u32 := 0, 0, 0;
    CountedStart(d, sourceAddress);
    BlocksFit(d);
    while tmpAddress < sourceAddress
      invariant Counted(d, sourceAddress, tmpAddress, blockCount, badBlocks)
      invariant badBlocks <= blockCount <= |d.blocks|
      decreases |d.blocks| - blockCount
    {
      while blockCount < |d.blocks| && d.blocks[blockCount].bad
        invariant Counted(d, sourceAddress, tmpAddress, blockCount, badBlocks)
        invariant badBlocks <= blockCount <= |d.blocks|
        decreases |d.blocks| - blockCount
      {
        CountedBad(d, sourceAddress, tmpAddress, blockCount, badBlocks);
        blockCount, badBlocks := blockCount + 1, badBlocks + 1;
      }
      if blockCount >= |d.blocks| {
        CountedOut(d, sourceAddress, tmpAddress, badBlocks);
        return OffDevice, 0;
      }
      CountedGood(d, sourceAddress, tmpAddress, blockCount, badBlocks);
      tmpAddress, blockCount := tmpAddress + d.blockSize, blockCount + 1;
    }
    CountedPlace(d, sourceAddress, tmpAddress, blockCount, badBlocks);
    o, offset := Success, sourceAddress + badBlocks * d.blockSize;
    PlaceInContents(d, offset);
  }

  /** The last loop of NandAccess: bad blocks are skipped, good ones read up to
      their end or up to what is left. */
  method ReadGood(d: Device, source: nat, first: u32, dest: array<bv8>, at: nat, lengthBytes: u32)
    returns (o: Outcome, ghost pieces: seq<Piece>)
    requires d.Valid() && at + lengthBytes <= dest.Length
    requires first <= d.Size() && d.Place(first) == source <= |d.Contents()|
    requires lengthBytes > 0 ==> first < d.Size()
    modifies dest
    ensures o == if source + lengthBytes <= |d.Contents()| then Success else OffDevice
    ensures o == Success ==> dest[at..at + lengthBytes] == d.Contents()[source..source + lengthBytes]
    ensures dest[..at] == old(dest[..at]) && dest[at + lengthBytes..] == old(dest[at + lengthBytes..])
    ensures pieces != [] ==> lengthBytes > 0
    ensures PiecesOk(d, first, lengthBytes, pieces)
  {
    hide Device.Place, Device.GoodTo, Device.Contents, Device.Size, Device.Within, Device.BlockAt, ActLen, PiecesOk;
    PlaceInContents(d, first);
    assert PiecesOk(d, first, lengthBytes, []) by { NoPieces(d, first, lengthBytes); }
    var bytesLeft: u32, offset: u32, bufPtr := lengthBytes, first, at;
    pieces := [];
    while bytesLeft > 0
      invariant bytesLeft <= lengthBytes && bufPtr == at + lengthBytes - bytesLeft
      invariant first <= offset <= d.Size() && d.Place(offset) == source + lengthBytes - bytesLeft
      invariant d.Place(offset) <= |d.Contents()|
      invariant dest[at..bufPtr] == d.Contents()[source..source + lengthBytes - bytesLeft]
      invariant dest[..at] == old(dest[..at]) && dest[bufPtr..] == old(dest[bufPtr..])
      invariant PiecesOk(d, first, lengthBytes, pieces)
      invariant pieces != [] ==> lengthBytes > 0
      decreases d.Size() - offset
    {
      if offset == d.Size() {
        assert d.Place(offset) == d.Place(d.Size()) == |d.Contents()|;
        return OffDevice, pieces;
      }
      var blockReadLen, block := d.blockSize - d.Within(offset), d.BlockAt(offset);
      NextBlock(d, offset);
      PlaceInContents(d, offset + blockReadLen);
      if d.blocks[block].bad {
        offset := offset + blockReadLen;
        continue;
      }
      var readLen := if bytesLeft < blockReadLen then bytesLeft else blockReadLen;
      PieceInside(d, first, offset, lengthBytes, bytesLeft, readLen);
      AfterPiece(d, offset, readLen);
      ghost var tail := dest[bufPtr..];
      ReadPiece(d, source, offset, readLen, dest, at, bufPtr);
      assert dest[bufPtr + readLen..] == tail[readLen..];
      pieces := pieces + [Piece(offset, readLen)];
      bytesLeft, offset, bufPtr := bytesLeft - readLen, offset + readLen, bufPtr + readLen;
    }
    o := Success;
  }

  /** A read that continues what is already in the buffer. */
  method ReadPiece(d: Device, source: nat, offset: nat, len: nat, dest: array<bv8>, start: nat, at: nat)
    requires d.Valid() && offset < d.Size() && d.GoodAt(offset)
    requires 0 < len <= d.blockSize - d.Within(offset) && start <= at && at + len <= dest.Length
    requires d.Place(offset) == source + at - start <= |d.Contents()|
    requires dest[start..at] == d.Contents()[source..source + at - start]
    modifies dest
    ensures source + at + len - start <= |d.Contents()|
    ensures dest[start..at + len] == d.Contents()[source..source + at + len - start]
    ensures dest[..start] == old(dest[..start]) && dest[at + len..] == old(dest[at + len..])
  {
    hide Device.Place, Device.GoodTo, Device.Contents, Device.Size, Device.Within, Device.BlockAt;
    ghost var before := dest[..at];
    Read(d, offset, len, dest, at);
    assert dest[start..at] == before[start..] && dest[..start] == before[..start];
    assert dest[start..at + len] == dest[start..at] + dest[at..at + len];
  }

  lemma AfterPiece(d: Device, offset: nat, len: nat)
    requires d.Valid() && offset < d.Size() && d.GoodAt(offset)
    requires len <= d.blockSize - d.Within(offset)
    ensures offset + len <= d.Size() && d.Place(offset + len) == d.Place(offset) + len
  {
    hide Device.Place, Device.GoodTo, Device.Size, Device.Within, Device.BlockAt;
    NextBlock(d, offset);
    if len < d.blockSize - d.Within(offset) {
      StayInBlock(d, offset, len);
    }
  }

  lemma PlaceInContents(d: Device, offset: nat)
    requires d.Valid() && offset <= d.Size()
    ensures d.Place(offset) <= |d.Contents()| && d.Place(d.Size()) == |d.Contents()|
  {
    PlaceAtBlock(d, |d.blocks|);
    PlaceMonotone(d, offset, d.Size());
  }

  /** NandAccess reads a range of the good blocks, whatever bad ones lie between,
      exactly when that many good bytes are left. When they are not it does not
      report the failure that its own check stands for, but runs off the device:
      the computed length stops at the end of the device. */
  method NandAccess(d: Device, sourceAddress: u32, dest: array<bv8>, at: nat, lengthBytes: u32)
    returns (o: Outcome, ghost first: nat, ghost pieces: seq<Piece>)
    requires d.Valid() && at + lengthBytes <= dest.Length
    modifies dest
    ensures o == if sourceAddress + lengthBytes <= |d.Contents()| then Success else OffDevice
    ensures o == Success ==>
              dest[at..at + lengthBytes] == d.Contents()[sourceAddress..sourceAddress + lengthBytes]
    ensures dest[..at] == old(dest[..at]) && dest[at + lengthBytes..] == old(dest[at + lengthBytes..])
    ensures pieces != [] ==> lengthBytes > 0 && first < d.Size() && d.Place(first) == sourceAddress
    ensures first <= d.Size() && PiecesOk(d, first, lengthBytes, pieces)
  {
    hide Device.Place, Device.GoodTo, ActLen, PieceOk;
    first, pieces := 0, [];
    var located, offset := Locate(d, sourceAddress);
    if located == OffDevice {
      return OffDevice, first, pieces;
    }
    first := offset;
    PlaceInContents(d, offset);
    var calculated, actLen := CalculateLength(d, offset, lengthBytes);
    if calculated == OffDevice {
      return OffDevice, first, pieces;
    }
    if offset + actLen > d.Size() {
      return Failure, first, pieces;
    }
    o, pieces := ReadGood(d, sourceAddress, offset, dest, at, lengthBytes);
  }
}
