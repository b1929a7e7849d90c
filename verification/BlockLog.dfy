/** The block log refines a list of blocks: appending, reading by number, rebuilding the index from the bytes,
    and opening the two files in whatever state they are found. */
module BlockLog {
  import opened Common
  import opened BlockLogFormat

  /** A file shorter than one word counts as empty; a fresh file has a single byte. */
  function MappedSize(file: Bytes): nat {
    if |file| < 8 then 0 else |file|
  }

  const FRESH: Bytes := [0]

  /** get_uint64 and get_last_uint64; nothing when the read is beyond the end of the file. */
  function WordAt(file: Bytes, pos: nat): Option<nat> {
    if pos + 8 <= MappedSize(file) then Some(Value(file[pos..pos + 8])) else None
  }

  function LastWord(file: Bytes): Option<nat> {
    if 8 <= MappedSize(file) then WordAt(file, |file| - 8) else None
  }

  function Min(a: nat, b: nat): nat {
    if a <= b then a else b
  }

  /** read_block: the block at a position and the position after it, checked by the trailing word. */
  function ReadBlock<B>(c: Codec<B>, file: Bytes, pos: nat): Option<(B, nat)> {
    if pos >= MappedSize(file) then None
    else
      match c.unpack(file[pos..pos + Min(|file| - pos, MAX_BLOCK_SIZE)])
      case None => None
      case Some((b, used)) => if WordAt(file, pos + used) == Some(pos) then Some((b, pos + used + 8)) else None
  }

  /** Numbered from 1, and none too big to be read back. */
  ghost predicate Chain<B(!new)>(c: Codec<B>, blocks: seq<B>) {
    && CodecOk(c) && Position(c, blocks, |blocks|) < TWO_64
    && forall i {:trigger blocks[i]} :: 0 <= i < |blocks| ==>
         c.num(blocks[i]) == i + 1 && |c.pack(blocks[i])| <= MAX_BLOCK_SIZE
  }

  /** The file has this content; no content means too short to count. */
  ghost predicate Holds(file: Bytes, content: Bytes) {
    if content == [] then |file| < 8 else file == content
  }

  /** Every block is read back from its position. */
  lemma ReadsBack<B(!new)>(c: Codec<B>, blocks: seq<B>, i: nat)
    requires Chain(c, blocks) && i < |blocks|
    ensures ReadBlock(c, LogOf(c, blocks, |blocks|), Position(c, blocks, i)) ==
              Some((blocks[i], Position(c, blocks, i + 1)))
  {
    hide LogOf, Position, Record, CodecOk, Word, Value;
    var file, pos, data := LogOf(c, blocks, |blocks|), Position(c, blocks, i), c.pack(blocks[i]);
    LogFrom(c, blocks, |blocks|, i);
    LogLength(c, blocks, |blocks|);
    BelowLimit(c, blocks, i);
    WordRoundTrip(pos);
    RecordParts(c, blocks, i);
    var size := Min(|file| - pos, MAX_BLOCK_SIZE);
    SliceParts(file, pos, data, Word(pos), size);
    UnpackPrefix(c, blocks[i], file[pos + |data|..pos + size]);
  }

  lemma BelowLimit<B(!new)>(c: Codec<B>, blocks: seq<B>, i: nat)
    requires Chain(c, blocks) && i < |blocks|
    ensures Position(c, blocks, i) < TWO_64 && 0 < |c.pack(blocks[i])| <= MAX_BLOCK_SIZE && c.num(blocks[i]) == i + 1
  {
    PositionsGrow(c, blocks, i, |blocks|);
    assert blocks[i] == blocks[i];
  }

  lemma RecordParts<B>(c: Codec<B>, blocks: seq<B>, i: nat)
    requires i < |blocks|
    ensures Record(c, blocks, i) == c.pack(blocks[i]) + Word(Position(c, blocks, i))
    ensures Position(c, blocks, i + 1) == Position(c, blocks, i) + |c.pack(blocks[i])| + 8
  {
  }

  lemma SliceParts(file: Bytes, pos: nat, data: Bytes, word: Bytes, size: nat)
    requires |word| == 8 && pos + |data| + 8 <= |file| && file[pos..pos + |data| + 8] == data + word
    requires |data| <= size <= |file| - pos
    ensures file[pos..pos + size] == data + file[pos + |data|..pos + size]
    ensures file[pos + |data|..pos + |data| + 8] == word
  {
    var whole := file[pos..pos + |data| + 8];
    assert whole[..|data|] == data && whole[|data|..] == word;
    assert file[pos..pos + |data|] == whole[..|data|];
    assert file[pos + |data|..pos + |data| + 8] == whole[|data|..];
  }

  lemma UnpackPrefix<B(!new)>(c: Codec<B>, b: B, rest: Bytes)
    requires CodecOk(c)
    ensures c.unpack(c.pack(b) + rest) == Some((b, |c.pack(b)|))
  {
  }

  /** The last word of the log is the position of the last block. */
  lemma LastOfLog<B(!new)>(c: Codec<B>, blocks: seq<B>)
    requires Chain(c, blocks) && blocks != []
    ensures |LogOf(c, blocks, |blocks|)| > 8
    ensures LastWord(LogOf(c, blocks, |blocks|)) == Some(Position(c, blocks, |blocks| - 1))
  {
    var n := |blocks|;
    BelowLimit(c, blocks, n - 1);
    WordRoundTrip(Position(c, blocks, n - 1));
    LogLength(c, blocks, n - 1);
    LogLength(c, blocks, n);
    var file := LogOf(c, blocks, n);
    assert file[|file| - 8..|file|] == Word(Position(c, blocks, n - 1));
  }

  lemma WordOfIndex<B(!new)>(c: Codec<B>, blocks: seq<B>, n: nat, i: nat)
    requires Chain(c, blocks) && i < n <= |blocks|
    ensures WordAt(IndexOf(c, blocks, n), 8 * i) == Some(Position(c, blocks, i))
    ensures |IndexOf(c, blocks, n)| == 8 * n
  {
    BelowLimit(c, blocks, i);
    WordRoundTrip(Position(c, blocks, i));
    IndexAt(c, blocks, n, i);
  }

  /** A stale index, one that stops early, has a different last word than the log. */
  lemma StaleIsNoticed<B(!new)>(c: Codec<B>, blocks: seq<B>, n: nat)
    requires Chain(c, blocks) && 0 < n < |blocks|
    ensures LastWord(IndexOf(c, blocks, n)).Some?
    ensures LastWord(IndexOf(c, blocks, n)) != LastWord(LogOf(c, blocks, |blocks|))
  {
    hide LogOf, Position, CodecOk, IndexOf, Value;
    LastOfLog(c, blocks);
    WordOfIndex(c, blocks, n, n - 1);
    PositionsDiffer(c, blocks, n - 1, |blocks| - 1);
  }

  lemma PositionsDiffer<B(!new)>(c: Codec<B>, blocks: seq<B>, i: nat, j: nat)
    requires CodecOk(c) && i < j <= |blocks|
    ensures Position(c, blocks, i) != Position(c, blocks, j)
  {
    PositionsGrow(c, blocks, i, j);
  }

  datatype Lookup<B> = Missing | Found(block: B) | Corrupt

  class BlockLog<B(!new)> {
    const codec: Codec<B>
    var blockFile: Bytes
    var indexFile: Bytes
    var head: Option<B>
    ghost var blocks: seq<B>

    constructor (codec: Codec<B>)
      requires CodecOk(codec)
      ensures Valid() && blocks == [] && this.codec == codec
    {
      this.codec, blockFile, indexFile, head, blocks := codec, FRESH, FRESH, None, [];
    }

    /** The two files are the log and the index of the blocks. */
    ghost predicate Valid()
      reads this
    {
      && Chain(codec, blocks)
      && Holds(blockFile, LogOf(codec, blocks, |blocks|)) && Holds(indexFile, IndexOf(codec, blocks, |blocks|))
      && head == LastBlock(blocks)
    }

    /** append: only the next number in turn is taken. */
    method Append(b: B) returns (ok: bool)
      requires Valid() && codec.num(b) > 0 && |codec.pack(b)| <= MAX_BLOCK_SIZE
      requires Position(codec, blocks + [b], |blocks| + 1) < TWO_64
      modifies this
      ensures Valid() && (ok <==> codec.num(b) == |old(blocks)| + 1)
      ensures blocks == if ok then old(blocks) + [b] else old(blocks)
    {
      FilesAre(codec, blocks, blockFile, indexFile);
      var indexPos := MappedSize(indexFile);
      if indexPos != 8 * (codec.num(b) - 1) {
        return false;
      }
      var blockPos := MappedSize(blockFile);
      Appended(codec, blocks, b);
      blockFile := Extended(blockFile, blockPos) + codec.pack(b) + Word(blockPos);
      indexFile := Extended(indexFile, indexPos) + Word(blockPos);
      head := Some(b);
      blocks := blocks + [b];
      ok := true;
    }

    /** get_block_pos */
    method GetBlockPos(n: nat) returns (r: Option<nat>)
      requires Valid()
      ensures r == if 0 < n <= |blocks| then Some(Position(codec, blocks, n - 1)) else None
    {
      if head.Some? {
        BelowLimit(codec, blocks, |blocks| - 1);
        if n <= codec.num(head.value) && n > 0 {
          FilesAre(codec, blocks, blockFile, indexFile);
          WordOfIndex(codec, blocks, |blocks|, n - 1);
          return WordAt(indexFile, 8 * (n - 1));
        }
      }
      return None;
    }

    /** read_block_by_num: the n-th appended block, and nothing for any other number. */
    method ReadByNum(n: nat) returns (r: Lookup<B>)
      requires Valid()
      ensures r == if 0 < n <= |blocks| then Found(blocks[n - 1]) else Missing
    {
      var pos := GetBlockPos(n);
      if pos.None? {
        return Missing;
      }
      FilesAre(codec, blocks, blockFile, indexFile);
      ReadsBack(codec, blocks, n - 1);
      BelowLimit(codec, blocks, n - 1);
      match ReadBlock(codec, blockFile, pos.value)
      case None => return Corrupt;
      case Some((b, _)) =>
        if codec.num(b) != n {
          return Corrupt;
        }
        return Found(b);
    }

    /** construct_index: from the bytes of the log alone, the very index that appending keeps. No write goes beyond
        the resized index file. */
    method ConstructIndex() returns (ok: bool)
      requires Chain(codec, blocks) && blocks != [] && head == LastBlock(blocks)
      requires blockFile == LogOf(codec, blocks, |blocks|)
      modifies this`indexFile
      ensures ok && indexFile == IndexOf(codec, blocks, |blocks|)
    {
      hide LogOf, IndexOf, CodecOk, Value, Word, Position, ReadBlock, WordAt, LastWord;
      BelowLimit(codec, blocks, |blocks| - 1);
      var index: Bytes := seq(8 * codec.num(head.value), i => 0 as Byte);
      var pos := 0;
      LastOfLog(codec, blocks);
      var endPos := LastWord(blockFile);
      if endPos.None? {
        return false;
      }
      var at := 0;
      NothingIndexed(codec, blocks, index);
      ghost var i := 0;
      while pos <= endPos.value
        invariant i <= |blocks| && at == 8 * i && |index| == 8 * |blocks| && pos == Position(codec, blocks, i)
        invariant index[..at] == IndexOf(codec, blocks, i)
        decreases |blocks| - i
      {
        EndReached(codec, blocks, i);
        IndexGrows(codec, blocks, i, index);
        index := Written(index, at, Word(pos));
        ReadsBack(codec, blocks, i);
        var read := ReadBlock(codec, blockFile, pos);
        if read.None? {
          return false;
        }
        pos := read.value.1;
        at := at + 8;
        i := i + 1;
      }
      EndReached(codec, blocks, i);
      assert index[..at] == index;
      indexFile := index;
      ok := true;
    }

    /** open, on a log that holds `content` and whatever index is there. A missing index and one that stops early are
        rebuilt; an index without a log goes. The index is right afterwards unless it was wrong with the right last
        entry. */
    method Open(blockBytes: Bytes, indexBytes: Bytes, ghost content: seq<B>) returns (ok: bool)
      requires Chain(codec, content) && Holds(blockBytes, LogOf(codec, content, |content|)) && head == None
      modifies this
      ensures ok && blocks == content && head == LastBlock(content)
      ensures Valid() <==> !(&& content != [] && |indexBytes| >= 8 && indexBytes != IndexOf(codec, content, |content|)
                             && LastWord(indexBytes) == LastWord(LogOf(codec, content, |content|)))
      ensures content != [] && LastWord(indexBytes) != LastWord(LogOf(codec, content, |content|)) ==> Valid()
    {
      hide LogOf, IndexOf, CodecOk, Value, Position, ReadBlock, LastWord;
      blockFile, indexFile, blocks := Opened(blockBytes), Opened(indexBytes), content;
      ContentIsLong(codec, content);
      ok := true;
      if |blockFile| > 8 {
        LastOfLog(codec, content);
        ReadsBack(codec, content, |content| - 1);
        head := ReadHead(codec, blockFile);
        if |indexFile| >= 8 {
          if LastWord(blockFile) != LastWord(indexFile) {
            ok := ConstructIndex();
          }
        } else {
          NoLastWord(indexBytes);
          ok := ConstructIndex();
        }
      } else if |indexFile| >= 8 {
        blockFile, indexFile := FRESH, FRESH;
      }
    }
  }

  /** A missing or empty file is created with one byte. */
  function Opened(file: Bytes): Bytes {
    if file == [] then FRESH else file
  }

  /** read_head */
  function ReadHead<B>(c: Codec<B>, file: Bytes): Option<B> {
    match LastWord(file)
    case None => None
    case Some(pos) => match ReadBlock(c, file, pos) case None => None case Some((b, _)) => Some(b)
  }

  lemma NoLastWord(file: Bytes)
    ensures |file| < 8 ==> LastWord(file) == None
  {
  }

  lemma ContentIsLong<B(!new)>(c: Codec<B>, content: seq<B>)
    requires Chain(c, content)
    ensures if content == [] then LogOf(c, content, |content|) == [] && IndexOf(c, content, |content|) == []
            else |LogOf(c, content, |content|)| > 8 && |IndexOf(c, content, |content|)| >= 8
  {
    LogLength(c, content, |content|);
    IndexLength(c, content, |content|);
    if content != [] {
      PositionsGrow(c, content, 0, |content|);
    }
  }

  function LastBlock<B>(blocks: seq<B>): Option<B> {
    if blocks == [] then None else Some(blocks[|blocks| - 1])
  }

  /** A file resized to its counted size: what was too short to count is cut off. */
  function Extended(file: Bytes, size: nat): Bytes {
    if size <= |file| then file[..size] else file
  }

  function Written(file: Bytes, at: nat, word: Bytes): (r: Bytes)
    requires |word| == 8 && at + 8 <= |file|
    ensures |r| == |file| && r[..at] == file[..at] && r[at..at + 8] == word
  {
    file[..at] + word + file[at + 8..]
  }

  lemma FilesAre<B(!new)>(c: Codec<B>, blocks: seq<B>, blockFile: Bytes, indexFile: Bytes)
    requires Chain(c, blocks) && Holds(blockFile, LogOf(c, blocks, |blocks|))
    requires Holds(indexFile, IndexOf(c, blocks, |blocks|))
    ensures Extended(blockFile, MappedSize(blockFile)) == LogOf(c, blocks, |blocks|)
    ensures Extended(indexFile, MappedSize(indexFile)) == IndexOf(c, blocks, |blocks|)
    ensures MappedSize(blockFile) == Position(c, blocks, |blocks|) && MappedSize(indexFile) == 8 * |blocks|
    ensures blocks != [] ==> blockFile == LogOf(c, blocks, |blocks|) && indexFile == IndexOf(c, blocks, |blocks|)
  {
    LogLength(c, blocks, |blocks|);
    IndexLength(c, blocks, |blocks|);
    if blocks != [] {
      PositionsGrow(c, blocks, 0, |blocks|);
    }
  }

  lemma Appended<B(!new)>(c: Codec<B>, blocks: seq<B>, b: B)
    requires Chain(c, blocks) && c.num(b) == |blocks| + 1 && |c.pack(b)| <= MAX_BLOCK_SIZE
    requires Position(c, blocks + [b], |blocks| + 1) < TWO_64
    ensures Chain(c, blocks + [b])
    ensures LogOf(c, blocks + [b], |blocks| + 1) ==
              LogOf(c, blocks, |blocks|) + c.pack(b) + Word(Position(c, blocks, |blocks|))
    ensures IndexOf(c, blocks + [b], |blocks| + 1) == IndexOf(c, blocks, |blocks|) + Word(Position(c, blocks, |blocks|))
  {
    SamePrefix(c, blocks, blocks + [b], |blocks|);
    forall i | 0 <= i < |blocks| + 1
      ensures c.num((blocks + [b])[i]) == i + 1 && |c.pack((blocks + [b])[i])| <= MAX_BLOCK_SIZE
    {
      if i < |blocks| {
        assert blocks[i] == blocks[i];
      }
    }
  }

  lemma NothingIndexed<B>(c: Codec<B>, blocks: seq<B>, index: Bytes)
    ensures index[..0] == IndexOf(c, blocks, 0) && Position(c, blocks, 0) == 0
  {
  }

  lemma EndReached<B(!new)>(c: Codec<B>, blocks: seq<B>, i: nat)
    requires CodecOk(c) && blocks != [] && i <= |blocks|
    ensures Position(c, blocks, i) <= Position(c, blocks, |blocks| - 1) <==> i < |blocks|
  {
    if i < |blocks| - 1 {
      PositionsGrow(c, blocks, i, |blocks| - 1);
    } else if i == |blocks| {
      PositionsGrow(c, blocks, |blocks| - 1, i);
    }
  }

  lemma IndexGrows<B>(c: Codec<B>, blocks: seq<B>, i: nat, index: Bytes)
    requires i < |blocks| && |index| == 8 * |blocks| && index[..8 * i] == IndexOf(c, blocks, i)
    ensures Written(index, 8 * i, Word(Position(c, blocks, i)))[..8 * i + 8] == IndexOf(c, blocks, i + 1)
  {
  }
}
