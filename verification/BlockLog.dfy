/**
 The block log: a file of packed blocks, each followed by its own position, and an index file of positions.
 The two files together stand for a sequence of blocks, through appends, reads and reopening.
 */
module BlockLog {
  import opened Common

  type Byte = x: int | 0 <= x < 256

  type Block(==, !new)

  datatype Unpacked = Unpacked(block: Block, size: nat)

  /** The serializer, and the number of a block. */
  datatype Codec = Codec(pack: Block -> seq<Byte>, unpack: seq<Byte> -> Option<Unpacked>, num: Block -> nat)

  const MAX_BLOCK_SIZE: nat := 65536 * 3 * 2000
  const LIMIT64: int := 0x1_0000_0000_0000_0000

  /** Unpacking a packed block finds the block and its end, whatever follows. */
  ghost predicate Lawful(c: Codec) {
    forall b, rest :: c.unpack(c.pack(b) + rest) == Some(Unpacked(b, |c.pack(b)|))
  }

  predicate Fits(c: Codec, b: Block) {
    0 < |c.pack(b)| <= MAX_BLOCK_SIZE
  }

  // ---------- numbers in files ----------

  function Pow256(k: nat): nat {
    if k == 0 then 1 else 256 * Pow256(k - 1)
  }

  function Digits(n: nat, k: nat): (r: seq<Byte>)
    ensures |r| == k
  {
    if k == 0 then [] else [n % 256] + Digits(n / 256, k - 1)
  }

  function Number(s: seq<Byte>): nat {
    if s == [] then 0 else s[0] + 256 * Number(s[1..])
  }

  lemma {:induction false} NumberOfDigits(n: nat, k: nat)
    requires n < Pow256(k)
    ensures Number(Digits(n, k)) == n
  {
    if k > 0 {
      NumberOfDigits(n / 256, k - 1);
      assert ([n % 256] + Digits(n / 256, k - 1))[1..] == Digits(n / 256, k - 1);
    }
  }

  /** A position as the file holds it: eight bytes, the lowest first. */
  function Mark(pos: nat): (r: seq<Byte>)
    ensures |r| == 8
  {
    Digits(pos, 8)
  }

  lemma MarkReads(pos: nat)
    requires pos < LIMIT64
    ensures Number(Mark(pos)) == pos
  {
    assert Pow256(4) == 0x1_0000_0000;
    assert Pow256(8) == LIMIT64;
    NumberOfDigits(pos, 8);
  }

  /** A file too short for one number counts as empty. */
  function MappedSize(file: seq<Byte>): nat {
    if |file| < 8 then 0 else |file|
  }

  function Get64(file: seq<Byte>, pos: nat): Option<nat> {
    if pos + 8 <= MappedSize(file) then Some(Number(file[pos..pos + 8])) else None
  }

  function GetLast64(file: seq<Byte>): Option<nat> {
    if 8 <= MappedSize(file) then Some(Number(file[|file| - 8..])) else None
  }

  // ---------- the files that stand for a sequence of blocks ----------

  function LogBytes(c: Codec, bs: seq<Block>): seq<Byte> {
    if bs == [] then []
    else
      var before := LogBytes(c, bs[..|bs| - 1]);
      before + c.pack(bs[|bs| - 1]) + Mark(|before|)
  }

  /** Where block i starts. */
  function Position(c: Codec, bs: seq<Block>, i: nat): nat
    requires i <= |bs|
  {
    |LogBytes(c, bs[..i])|
  }

  function IndexBytes(c: Codec, bs: seq<Block>): (r: seq<Byte>)
    ensures |r| == 8 * |bs|
  {
    if bs == [] then [] else IndexBytes(c, bs[..|bs| - 1]) + Mark(Position(c, bs, |bs| - 1))
  }

  /** An empty file may hold a byte or so; any other holds exactly its contents. */
  predicate Holds(file: seq<Byte>, bytes: seq<Byte>) {
    if bytes == [] then |file| < 8 else file == bytes
  }

  predicate Storable(c: Codec, bs: seq<Block>) {
    && (forall i :: 0 <= i < |bs| ==> Fits(c, bs[i]) && c.num(bs[i]) == i + 1)
    && |LogBytes(c, bs)| < LIMIT64
  }

  lemma LogNext(c: Codec, bs: seq<Block>, i: nat)
    requires i < |bs|
    ensures LogBytes(c, bs[..i + 1]) == LogBytes(c, bs[..i]) + c.pack(bs[i]) + Mark(Position(c, bs, i))
    ensures Position(c, bs, i + 1) == Position(c, bs, i) + |c.pack(bs[i])| + 8
    ensures IndexBytes(c, bs[..i + 1]) == IndexBytes(c, bs[..i]) + Mark(Position(c, bs, i))
  {
    assert bs[..i + 1][..i] == bs[..i];
  }

  lemma {:induction false} LogPrefix(c: Codec, bs: seq<Block>, i: nat)
    requires i <= |bs|
    ensures LogBytes(c, bs[..i]) <= LogBytes(c, bs) && IndexBytes(c, bs[..i]) <= IndexBytes(c, bs)
    decreases |bs| - i
  {
    if i == |bs| {
      assert bs[..i] == bs;
    } else {
      LogPrefix(c, bs, i + 1);
      LogNext(c, bs, i);
    }
  }

  /** Positions grow. */
  lemma {:induction false} PositionsGrow(c: Codec, bs: seq<Block>, i: nat, j: nat)
    requires i < j <= |bs|
    ensures Position(c, bs, i) + 8 <= Position(c, bs, j) <= |LogBytes(c, bs)|
    decreases j - i
  {
    LogNext(c, bs, j - 1);
    LogPrefix(c, bs, j);
    if i < j - 1 {
      PositionsGrow(c, bs, i, j - 1);
    }
  }

  /** The log at block i: its bytes, then its position. */
  lemma LogAt(c: Codec, bs: seq<Block>, i: nat)
    requires i < |bs|
    ensures var log, p, n := LogBytes(c, bs), Position(c, bs, i), |c.pack(bs[i])|;
            && p + n + 8 == Position(c, bs, i + 1) <= |log|
            && log[p..p + n] == c.pack(bs[i]) && log[p + n..p + n + 8] == Mark(p)
  {
    hide LogBytes, IndexBytes, Mark;
    var log, p, n := LogBytes(c, bs), Position(c, bs, i), |c.pack(bs[i])|;
    LogNext(c, bs, i);
    LogPrefix(c, bs, i + 1);
    Parts(log, LogBytes(c, bs[..i]), c.pack(bs[i]), Mark(p));
  }

  lemma Parts(s: seq<Byte>, a: seq<Byte>, b: seq<Byte>, m: seq<Byte>)
    requires a + b + m <= s
    ensures s[|a|..|a| + |b|] == b && s[|a| + |b|..|a| + |b| + |m|] == m
  {
    var t := a + b + m;
    assert s[..|t|] == t;
    assert s[|a|..|a| + |b|] == t[|a|..|a| + |b|];
    assert s[|a| + |b|..|a| + |b| + |m|] == t[|a| + |b|..|a| + |b| + |m|];
  }

  /** The index at block i. */
  lemma IndexAt(c: Codec, bs: seq<Block>, i: nat)
    requires i < |bs|
    ensures IndexBytes(c, bs)[8 * i..8 * i + 8] == Mark(Position(c, bs, i))
  {
    var index := IndexBytes(c, bs);
    LogNext(c, bs, i);
    LogPrefix(c, bs, i + 1);
    var upTo := IndexBytes(c, bs[..i + 1]);
    hide LogBytes, IndexBytes;
    assert index[..8 * i + 8] == upTo;
    assert index[8 * i..8 * i + 8] == upTo[8 * i..8 * i + 8];
  }

  lemma StorableFacts(c: Codec, bs: seq<Block>, i: nat)
    requires Storable(c, bs) && i < |bs|
    ensures Fits(c, bs[i]) && Position(c, bs, |bs|) == |LogBytes(c, bs)| < LIMIT64
  {
    hide LogBytes, Fits;
    assert bs[..|bs|] == bs;
  }

  /** Both files end with the position of the last block. */
  lemma LastMarks(c: Codec, bs: seq<Block>)
    requires bs != [] && Storable(c, bs)
    ensures var p := Position(c, bs, |bs| - 1);
            && 8 < |LogBytes(c, bs)| && GetLast64(LogBytes(c, bs)) == Some(p) && GetLast64(IndexBytes(c, bs)) == Some(p)
            && p < |LogBytes(c, bs)|
  {
    hide Mark, Number, IndexBytes, LogBytes, GetLast64, Storable, Position;
    var n := |bs| - 1;
    StorableFacts(c, bs, n);
    LogAt(c, bs, n);
    IndexAt(c, bs, n);
    EndsWithMark(LogBytes(c, bs), Position(c, bs, n));
    EndsWithMark(IndexBytes(c, bs), Position(c, bs, n));
  }

  lemma EndsWithMark(file: seq<Byte>, p: nat)
    requires 8 <= |file| && file[|file| - 8..|file|] == Mark(p) && p < LIMIT64
    ensures GetLast64(file) == Some(p)
  {
    MarkReads(p);
    hide Mark, Number;
    assert file[|file| - 8..] == file[|file| - 8..|file|];
  }

  /** Bytes written in place. */
  function Written(file: seq<Byte>, at: nat, bytes: seq<Byte>): seq<Byte>
    requires at + |bytes| <= |file|
  {
    file[..at] + bytes + file[at + |bytes|..]
  }

  lemma WrittenAt(file: seq<Byte>, at: nat, bytes: seq<Byte>)
    requires at + |bytes| <= |file|
    ensures var r := Written(file, at, bytes);
            |r| == |file| && r[..at + |bytes|] == file[..at] + bytes
  {
  }

  // ---------- reading ----------

  /** read_block: the block and the position after it, or nothing where the code throws. */
  function ReadBlock(c: Codec, file: seq<Byte>, pos: nat): Option<Unpacked> {
    if MappedSize(file) <= pos then None
    else
      var available := |file| - pos;
      var size := if available < MAX_BLOCK_SIZE then available else MAX_BLOCK_SIZE;
      match c.unpack(file[pos..pos + size])
      case None => None
      case Some(u) =>
        if Get64(file, pos + u.size) != Some(pos) then None else Some(Unpacked(u.block, pos + u.size + 8))
  }

  /**
   A log file that reads as bs: it begins with the log of bs and ends with the position of the last block of bs.
   The log of bs itself is one, but a file that goes on after it may be one too.
   */
  predicate ReadsAs(c: Codec, file: seq<Byte>, bs: seq<Block>) {
    if bs == [] then |file| < 8
    else
      && LogBytes(c, bs) <= file && |file| < LIMIT64
      && GetLast64(file) == Some(Position(c, bs, |bs| - 1))
  }

  /** Any such file has the blocks of bs at their positions. */
  lemma ReadsBlockIn(c: Codec, file: seq<Byte>, bs: seq<Block>, i: nat)
    requires Lawful(c) && Storable(c, bs) && LogBytes(c, bs) <= file && |file| < LIMIT64 && i < |bs|
    ensures ReadBlock(c, file, Position(c, bs, i)) == Some(Unpacked(bs[i], Position(c, bs, i + 1)))
  {
    hide *;
    StorableFacts(c, bs, i);
    LogAt(c, bs, i);
    ReadsAtIn(c, LogBytes(c, bs), file, Position(c, bs, i), bs[i]);
  }

  lemma ReadsAtIn(c: Codec, log: seq<Byte>, file: seq<Byte>, p: nat, b: Block)
    requires Lawful(c) && Fits(c, b) && log <= file && |file| < LIMIT64 && p + |c.pack(b)| + 8 <= |log|
    requires log[p..p + |c.pack(b)|] == c.pack(b) && log[p + |c.pack(b)|..p + |c.pack(b)| + 8] == Mark(p)
    ensures ReadBlock(c, file, p) == Some(Unpacked(b, p + |c.pack(b)| + 8))
  {
    hide *;
    var n := |c.pack(b)|;
    PrefixSlices(log, file, p, p + n);
    PrefixSlices(log, file, p + n, p + n + 8);
    ReadsAt(c, file, p, b);
  }

  lemma PrefixSlices(log: seq<Byte>, file: seq<Byte>, i: nat, j: nat)
    requires log <= file && i <= j <= |log|
    ensures file[i..j] == log[i..j]
  {
    assert file[..|log|] == log;
  }

  /** The log of bs reads as bs. */
  lemma LogReadsAs(c: Codec, file: seq<Byte>, bs: seq<Block>)
    requires Storable(c, bs) && Holds(file, LogBytes(c, bs))
    ensures ReadsAs(c, file, bs)
  {
    LogSize(c, bs);
    if bs != [] {
      LastMarks(c, bs);
    }
    hide LogBytes, GetLast64, Position;
  }

  /** At a block's position it finds that block and the next one's position. */
  lemma ReadsBlock(c: Codec, bs: seq<Block>, i: nat)
    requires Lawful(c) && Storable(c, bs) && i < |bs|
    ensures ReadBlock(c, LogBytes(c, bs), Position(c, bs, i)) == Some(Unpacked(bs[i], Position(c, bs, i + 1)))
  {
    assert Fits(c, bs[i]) && |LogBytes(c, bs)| < LIMIT64;
    hide LogBytes, Mark, Storable, Position, Lawful, ReadBlock;
    LogAt(c, bs, i);
    ReadsAt(c, LogBytes(c, bs), Position(c, bs, i), bs[i]);
  }

  lemma ReadsAt(c: Codec, log: seq<Byte>, p: nat, b: Block)
    requires Lawful(c) && Fits(c, b) && p + |c.pack(b)| + 8 <= |log| < LIMIT64
    requires log[p..p + |c.pack(b)|] == c.pack(b) && log[p + |c.pack(b)|..p + |c.pack(b)| + 8] == Mark(p)
    ensures ReadBlock(c, log, p) == Some(Unpacked(b, p + |c.pack(b)| + 8))
  {
    hide Mark, Number, Lawful;
    MarkReads(p);
    var size := if |log| - p < MAX_BLOCK_SIZE then |log| - p else MAX_BLOCK_SIZE;
    UnpacksAt(c, log, p, b, size);
  }

  lemma UnpacksAt(c: Codec, log: seq<Byte>, p: nat, b: Block, size: nat)
    requires Lawful(c) && |c.pack(b)| <= size && p + size <= |log| && log[p..p + |c.pack(b)|] == c.pack(b)
    ensures c.unpack(log[p..p + size]) == Some(Unpacked(b, |c.pack(b)|))
  {
    var n := |c.pack(b)|;
    assert log[p..p + size] == c.pack(b) + log[p + n..p + size];
  }

  // ---------- the object ----------

  class BlockLog {
    const codec: Codec
    var blockFile: seq<Byte>
    var indexFile: seq<Byte>
    var head: Option<Block>

    constructor (codec: Codec, blockFile: seq<Byte>, indexFile: seq<Byte>)
      ensures this.codec == codec && this.blockFile == blockFile && this.indexFile == indexFile && head == None
    {
      this.codec, this.blockFile, this.indexFile, head := codec, blockFile, indexFile, None;
    }

    /** The files and the head stand for bs. */
    ghost predicate Represents(bs: seq<Block>)
      reads this
    {
      && Lawful(codec) && Storable(codec, bs)
      && Holds(blockFile, LogBytes(codec, bs)) && Holds(indexFile, IndexBytes(codec, bs))
      && head == if bs == [] then None else Some(bs[|bs| - 1])
    }

    /** Writes the block and its position at the end of the log; the index is written afterwards. */
    method WriteBlock(ghost bs: seq<Block>, b: Block) returns (pos: nat)
      requires Holds(blockFile, LogBytes(codec, bs))
      modifies this`blockFile
      ensures pos == |LogBytes(codec, bs)| && blockFile == LogBytes(codec, bs + [b])
    {
      SizeOfHeld(codec, bs, blockFile);
      assert (bs + [b])[..|bs|] == bs;
      pos := MappedSize(blockFile);
      blockFile := blockFile[..pos] + codec.pack(b) + Mark(pos);
    }

    /** append: refused unless the block is the next one; then the log stands for one block more. */
    method Append(ghost bs: seq<Block>, b: Block) returns (ok: bool)
      requires Represents(bs) && Fits(codec, b) && 0 < codec.num(b) && |LogBytes(codec, bs + [b])| < LIMIT64
      modifies this
      ensures ok == (codec.num(b) == |bs| + 1)
      ensures Represents(if ok then bs + [b] else bs)
    {
      var indexPos := MappedSize(indexFile);
      SizeOfIndex(codec, bs, indexFile);
      if indexPos != 8 * (codec.num(b) - 1) {
        return false;
      }
      AppendedFacts(codec, bs, b);
      hide Lawful, LogBytes, IndexBytes, Mark;
      var pos := WriteBlock(bs, b);
      indexFile := indexFile[..indexPos] + Mark(pos);
      head := Some(b);
      return true;
    }

    method GetBlockPos(ghost bs: seq<Block>, blockNum: nat) returns (pos: Option<nat>)
      requires Represents(bs)
      ensures pos == if 1 <= blockNum <= |bs| then Some(Position(codec, bs, blockNum - 1)) else None
    {
      if head.Some? && blockNum <= codec.num(head.value) && blockNum > 0 {
        IndexReads(codec, bs, blockNum - 1);
        return Get64(indexFile, 8 * (blockNum - 1));
      }
      return None;
    }

    /** The n-th block that was appended, for every n; nothing beyond the last, and never a wrong block. */
    method ReadBlockByNum(ghost bs: seq<Block>, blockNum: nat) returns (ok: bool, result: Option<Block>)
      requires Represents(bs)
      ensures ok && result == if 1 <= blockNum <= |bs| then Some(bs[blockNum - 1]) else None
    {
      var pos := GetBlockPos(bs, blockNum);
      if pos == None {
        return true, None;
      }
      ReadsBlock(codec, bs, blockNum - 1);
      hide ReadBlock, LogBytes, IndexBytes, Lawful;
      var read := ReadBlock(codec, blockFile, pos.value);
      return codec.num(read.value.block) == blockNum, Some(read.value.block);
    }

    /** Scans the log and writes every position it meets; it writes exactly the index that appending would have. */
    method ConstructIndex(ghost bs: seq<Block>)
      requires Lawful(codec) && Storable(codec, bs) && bs != [] && ReadsAs(codec, blockFile, bs)
      requires head == Some(bs[|bs| - 1])
      modifies this`indexFile
      ensures indexFile == IndexBytes(codec, bs)
    {
      assert GetLast64(blockFile) == Some(Position(codec, bs, |bs| - 1));
      hide Lawful, Storable, LogBytes, IndexBytes, ReadBlock, Position, Mark, GetLast64, Written, Scanned, Zeros,
        ReadsAs;
      HeadNumber(codec, bs);
      indexFile := Zeros(8 * codec.num(head.value));
      ScanStarts(codec, bs, indexFile);
      var pos, at := 0, 0;
      var end := GetLast64(blockFile).value;
      ghost var i := 0;
      while pos <= end
        invariant Scanned(codec, bs, i, indexFile, at, pos) && i <= |bs|
        decreases |bs| - i
      {
        ScanStep(codec, blockFile, bs, i, indexFile, at, pos);
        indexFile := Written(indexFile, at, Mark(pos));
        pos := ReadBlock(codec, blockFile, pos).value.size;
        at := at + 8;
        i := i + 1;
      }
      ScanEnds(codec, bs, i, indexFile, at, pos);
    }

    /**
     open, on a log file that reads as bs and any index file whatever: the index is rebuilt unless its last
     entry is the position of the last block, and an index without a log is thrown away.
     */
    method Open(ghost bs: seq<Block>)
      requires Lawful(codec) && Storable(codec, bs) && ReadsAs(codec, blockFile, bs) && head == None
      modifies this
      ensures ReadsAs(codec, blockFile, bs) && head == if bs == [] then None else Some(bs[|bs| - 1])
      ensures if bs == [] then |indexFile| < 8
              else blockFile == old(blockFile)
                   && indexFile == IndexAfterOpen(codec, bs, old(indexFile))
    {
      ReadsAsFacts(codec, blockFile, bs);
      if |blockFile| > 8 {
        ReadsBlockIn(codec, blockFile, bs, |bs| - 1);
        hide ReadBlock, LogBytes, IndexBytes, Lawful, Storable, Position, GetLast64, ReadsAs;
        var last := GetLast64(blockFile).value;
        head := Some(ReadBlock(codec, blockFile, last).value.block);
        if |indexFile| >= 8 {
          if GetLast64(blockFile) != GetLast64(indexFile) {
            ConstructIndex(bs);
          }
        } else {
          ShortFile(indexFile);
          ConstructIndex(bs);
        }
      } else if |indexFile| >= 8 {
        blockFile, indexFile := [0], [0];
      }
    }
  }

  lemma ReadsAsFacts(c: Codec, file: seq<Byte>, bs: seq<Block>)
    requires Storable(c, bs) && ReadsAs(c, file, bs)
    ensures bs == [] <==> |file| <= 8
    ensures bs != [] ==> GetLast64(file) == Some(Position(c, bs, |bs| - 1))
    ensures bs != [] ==> LogBytes(c, bs) <= file && |file| < LIMIT64
  {
    LogSize(c, bs);
    hide LogBytes, GetLast64, Position;
  }

  lemma HeadNumber(c: Codec, bs: seq<Block>)
    requires Storable(c, bs) && bs != []
    ensures c.num(bs[|bs| - 1]) == |bs|
  {
  }

  lemma ShortFile(file: seq<Byte>)
    requires |file| < 8
    ensures GetLast64(file) == None
  {
  }

  lemma SizeOfHeld(c: Codec, bs: seq<Block>, file: seq<Byte>)
    requires Holds(file, LogBytes(c, bs))
    ensures MappedSize(file) == |LogBytes(c, bs)| && file[..MappedSize(file)] == LogBytes(c, bs)
  {
  }

  lemma SizeOfIndex(c: Codec, bs: seq<Block>, file: seq<Byte>)
    requires Holds(file, IndexBytes(c, bs))
    ensures MappedSize(file) == 8 * |bs| && file[..MappedSize(file)] == IndexBytes(c, bs)
  {
    if bs != [] {
      assert IndexBytes(c, bs) != [];
    }
    hide IndexBytes;
  }

  lemma AppendedFacts(c: Codec, bs: seq<Block>, b: Block)
    requires Storable(c, bs) && Fits(c, b) && c.num(b) == |bs| + 1 && |LogBytes(c, bs + [b])| < LIMIT64
    ensures Storable(c, bs + [b]) && LogBytes(c, bs + [b]) != []
    ensures IndexBytes(c, bs + [b]) == IndexBytes(c, bs) + Mark(|LogBytes(c, bs)|)
  {
    assert (bs + [b])[..|bs|] == bs;
    hide Mark;
  }

  lemma IndexReads(c: Codec, bs: seq<Block>, i: nat)
    requires Storable(c, bs) && i < |bs|
    ensures Get64(IndexBytes(c, bs), 8 * i) == Some(Position(c, bs, i)) && IndexBytes(c, bs) != []
  {
    IndexAt(c, bs, i);
    LogAt(c, bs, i);
    MarkReads(Position(c, bs, i));
    hide IndexBytes, LogBytes, Mark, Number;
  }

  lemma IndexStarts(c: Codec, bs: seq<Block>)
    ensures Position(c, bs, 0) == 0 && IndexBytes(c, bs[..0]) == []
  {
  }

  /** The scan has met i blocks and written their positions. */
  ghost predicate Scanned(c: Codec, bs: seq<Block>, i: nat, file: seq<Byte>, at: nat, pos: nat) {
    && i <= |bs| && at == 8 * i && pos == Position(c, bs, i)
    && |file| == 8 * |bs| && file[..at] == IndexBytes(c, bs[..i])
  }

  lemma ScanStarts(c: Codec, bs: seq<Block>, file: seq<Byte>)
    requires |file| == 8 * |bs|
    ensures Scanned(c, bs, 0, file, 0, 0)
  {
  }

  lemma ScanStep(c: Codec, log: seq<Byte>, bs: seq<Block>, i: nat, file: seq<Byte>, at: nat, pos: nat)
    requires Lawful(c) && Storable(c, bs) && bs != [] && ReadsAs(c, log, bs)
    requires Scanned(c, bs, i, file, at, pos) && pos <= Position(c, bs, |bs| - 1)
    ensures i < |bs| && at + 8 <= |file| && ReadBlock(c, log, pos).Some?
    ensures Scanned(c, bs, i + 1, Written(file, at, Mark(pos)), at + 8, ReadBlock(c, log, pos).value.size)
  {
    hide LogBytes, IndexBytes, ReadBlock, Mark, Position, Storable, Lawful, Written, GetLast64;
    PositionsGrow(c, bs, |bs| - 1, |bs|);
    ReadsBlockIn(c, log, bs, i);
    LogNext(c, bs, i);
    WrittenAt(file, at, Mark(pos));
  }

  lemma ScanEnds(c: Codec, bs: seq<Block>, i: nat, file: seq<Byte>, at: nat, pos: nat)
    requires bs != [] && Scanned(c, bs, i, file, at, pos) && Position(c, bs, |bs| - 1) < pos
    ensures file == IndexBytes(c, bs)
  {
    hide LogBytes, Position, IndexBytes;
    if i < |bs| - 1 {
      PositionsGrow(c, bs, i, |bs| - 1);
    }
    assert bs[..|bs|] == bs && file[..|file|] == file;
  }

  lemma LogSize(c: Codec, bs: seq<Block>)
    requires Storable(c, bs)
    ensures bs != [] ==> 8 < |LogBytes(c, bs)|
    ensures bs == [] ==> LogBytes(c, bs) == []
  {
    if bs != [] {
      LastMarks(c, bs);
    }
  }

  // ---------- stops in the middle of an append ----------

  function Zeros(n: nat): (r: seq<Byte>)
    ensures |r| == n
  {
    if n == 0 then [] else [0] + Zeros(n - 1)
  }

  lemma {:induction false} ZerosAreZero(n: nat)
    ensures Number(Zeros(n)) == 0 && Digits(0, n) == Zeros(n)
  {
    if n > 0 {
      ZerosAreZero(n - 1);
      assert ([0] + Zeros(n - 1))[1..] == Zeros(n - 1);
    }
  }

  /** What opening makes of an index file beside a log of bs. */
  function IndexAfterOpen(c: Codec, bs: seq<Block>, file: seq<Byte>): seq<Byte>
    requires bs != []
  {
    if GetLast64(file) == Some(Position(c, bs, |bs| - 1)) then file else IndexBytes(c, bs)
  }

  /**
   A stop after the block was written, before its index entry was or while it was still blank: opening
   gives the index of the whole log, as it does from the index of any shorter log.
   */
  lemma StoppedIndexIsRestored(c: Codec, bs: seq<Block>, m: nat, file: seq<Byte>)
    requires Storable(c, bs) && m < |bs|
    requires Holds(file, IndexBytes(c, bs[..m])) || file == IndexBytes(c, bs[..m]) + Zeros(8)
    ensures IndexAfterOpen(c, bs, file) == IndexBytes(c, bs)
  {
    hide *;
    if file == IndexBytes(c, bs[..m]) + Zeros(8) {
      BlankEntry(c, bs, m, file);
    } else {
      ShorterIndex(c, bs, m, file);
    }
  }

  lemma ShorterIndex(c: Codec, bs: seq<Block>, m: nat, file: seq<Byte>)
    requires Storable(c, bs) && m < |bs| && Holds(file, IndexBytes(c, bs[..m]))
    ensures IndexAfterOpen(c, bs, file) == IndexBytes(c, bs)
  {
    hide LogBytes, GetLast64, Storable, Position, Mark;
    if m == 0 {
      ShortFile(file);
    } else {
      assert IndexBytes(c, bs[..m]) != [];
      hide IndexBytes;
      StorablePrefix(c, bs, m);
      LastMarks(c, bs[..m]);
      SamePosition(c, bs, m);
      PositionsGrow(c, bs, m - 1, |bs| - 1);
    }
  }

  lemma SamePosition(c: Codec, bs: seq<Block>, m: nat)
    requires 0 < m <= |bs|
    ensures Position(c, bs[..m], m - 1) == Position(c, bs, m - 1)
  {
    assert bs[..m][..m - 1] == bs[..m - 1];
    hide LogBytes;
  }

  lemma BlankEntry(c: Codec, bs: seq<Block>, m: nat, file: seq<Byte>)
    requires m < |bs| && file == IndexBytes(c, bs[..m]) + Zeros(8)
    ensures IndexAfterOpen(c, bs, file) == IndexBytes(c, bs)
  {
    hide *;
    if |bs| == 1 {
      OneBlankEntry(c, bs);
      assert bs[..m] == bs[..0];
      RebuiltIsSame(c, bs, file);
    } else {
      BlankIsNotLast(c, bs, IndexBytes(c, bs[..m]));
    }
  }

  lemma RebuiltIsSame(c: Codec, bs: seq<Block>, file: seq<Byte>)
    requires bs != [] && file == IndexBytes(c, bs)
    ensures IndexAfterOpen(c, bs, file) == IndexBytes(c, bs)
  {
    hide GetLast64, Position, IndexBytes;
  }

  /** A blank entry is not the position of the last of several blocks. */
  lemma BlankIsNotLast(c: Codec, bs: seq<Block>, before: seq<Byte>)
    requires 1 < |bs|
    ensures IndexAfterOpen(c, bs, before + Zeros(8)) == IndexBytes(c, bs)
  {
    hide LogBytes, IndexBytes, Zeros, Number, Position, Mark, Digits;
    var file := before + Zeros(8);
    IndexStarts(c, bs);
    ZerosAreZero(8);
    assert file[|file| - 8..] == Zeros(8);
    PositionsGrow(c, bs, 0, |bs| - 1);
  }

  /** The index of one block is a blank entry. */
  lemma OneBlankEntry(c: Codec, bs: seq<Block>)
    requires |bs| == 1
    ensures IndexBytes(c, bs) == IndexBytes(c, bs[..0]) + Zeros(8)
  {
    IndexStarts(c, bs);
    ZerosAreZero(8);
    hide LogBytes, Zeros, Number;
    assert Mark(0) == Zeros(8);
  }

  lemma StorablePrefix(c: Codec, bs: seq<Block>, m: nat)
    requires Storable(c, bs) && m <= |bs|
    ensures Storable(c, bs[..m])
  {
    LogPrefix(c, bs, m);
    hide LogBytes, IndexBytes;
  }

  /**
   A stop before that is different: the position is written last, so as long as the block's bytes are being
   copied, t, the file ends in eight zeros. Zero is the position of the first block, and the file reads as a log of
   that block alone: opening takes it for the head, and rebuilds the index with this one entry.
   */
  lemma BlankTailHidesBlocks(c: Codec, bs: seq<Block>, t: seq<Byte>)
    requires Lawful(c) && Storable(c, bs) && bs != [] && |LogBytes(c, bs)| + |t| + 8 < LIMIT64
    ensures Storable(c, bs[..1]) && ReadsAs(c, LogBytes(c, bs) + (t + Zeros(8)), bs[..1])
  {
    hide LogBytes, GetLast64, Zeros, IndexBytes, Storable, Position;
    var log, torn := LogBytes(c, bs), LogBytes(c, bs) + (t + Zeros(8));
    StorablePrefix(c, bs, 1);
    LogPrefix(c, bs, 1);
    BlankEnd(log, t);
    IndexStarts(c, bs[..1]);
    assert torn[..|log|] == log;
  }

  /** The block that opening takes for the head. */
  function HeadRead(c: Codec, file: seq<Byte>): Option<Block> {
    match GetLast64(file)
    case None => None
    case Some(pos) =>
      match ReadBlock(c, file, pos)
      case None => None
      case Some(u) => Some(u.block)
  }

  /** A file that reads as bs has the last block of bs for its head. */
  lemma HeadReadIs(c: Codec, file: seq<Byte>, bs: seq<Block>)
    requires Lawful(c) && Storable(c, bs) && ReadsAs(c, file, bs) && bs != []
    ensures HeadRead(c, file) == Some(bs[|bs| - 1])
  {
    hide LogBytes, Lawful, Storable, Position, GetLast64, ReadBlock;
    ReadsBlockIn(c, file, bs, |bs| - 1);
  }

  /**
   So after a stop while block b was being appended to bs, opening finds the true head exactly when b's position
   was written, and then it is b, or when bs has one block only.
   */
  lemma TrueHeadIff(c: Codec, bs: seq<Block>, b: Block, t: seq<Byte>)
    requires Lawful(c) && Storable(c, bs + [b]) && bs != [] && |LogBytes(c, bs)| + |t| + 8 < LIMIT64
    ensures HeadRead(c, LogBytes(c, bs + [b])) == Some(b)
    ensures HeadRead(c, LogBytes(c, bs) + (t + Zeros(8))) == Some(bs[|bs| - 1]) <==> |bs| == 1
  {
    var all := bs + [b];
    assert all[..|bs|] == bs;
    StorablePrefix(c, all, |bs|);
    LogSize(c, all);
    LogReadsAs(c, LogBytes(c, all), all);
    HeadReadIs(c, LogBytes(c, all), all);
    BlankTailHidesBlocks(c, bs, t);
    HeadReadIs(c, LogBytes(c, bs) + (t + Zeros(8)), bs[..1]);
    assert c.num(bs[0]) == 1 && c.num(bs[|bs| - 1]) == |bs|;
    hide *;
  }

  lemma BlankEnd(log: seq<Byte>, t: seq<Byte>)
    ensures GetLast64(log + (t + Zeros(8))) == Some(0)
  {
    var torn := log + (t + Zeros(8));
    ZerosAreZero(8);
    hide Zeros, Number;
    assert torn[|torn| - 8..] == Zeros(8);
  }
}
