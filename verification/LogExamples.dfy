/** Concrete logs: a packing of blocks that meets what is asked of one, a chain whose log follows it, and a pair of
    files that opening does not repair. */
module LogExamples {
  import opened Common
  import opened BlockLogFormat
  import Log = BlockLog
  import opened ForkDatabase
  import opened Irreversibility

  // ----- a packing -----

  /** n ones and a zero. */
  function Unary(n: nat): (r: Bytes)
    ensures |r| == n + 1
  {
    if n == 0 then [0] else [1] + Unary(n - 1)
  }

  function ReadUnary(bytes: Bytes): Option<(nat, nat)> {
    if bytes == [] then None
    else if bytes[0] == 0 then Some((0, 1))
    else
      match ReadUnary(bytes[1..])
      case None => None
      case Some((n, used)) => Some((n + 1, used + 1))
  }

  lemma {:induction false} UnaryRoundTrip(n: nat, rest: Bytes)
    ensures ReadUnary(Unary(n) + rest) == Some((n, n + 1))
  {
    if n > 0 {
      UnaryRoundTrip(n - 1, rest);
      assert (Unary(n) + rest)[1..] == Unary(n - 1) + rest;
    }
  }

  function PackAll(numbers: seq<nat>): Bytes {
    if numbers == [] then [] else Unary(numbers[0]) + PackAll(numbers[1..])
  }

  function ReadAll(bytes: Bytes, count: nat): (r: Option<(seq<nat>, nat)>)
    ensures r.Some? ==> |r.value.0| == count
  {
    if count == 0 then Some(([], 0))
    else
      match ReadUnary(bytes)
      case None => None
      case Some((n, used)) =>
        if used > |bytes| then None
        else
          match ReadAll(bytes[used..], count - 1)
          case None => None
          case Some((rest, more)) => Some(([n] + rest, used + more))
  }

  lemma {:induction false} AllRoundTrip(numbers: seq<nat>, rest: Bytes)
    ensures ReadAll(PackAll(numbers) + rest, |numbers|) == Some((numbers, |PackAll(numbers)|))
  {
    hide Unary, ReadUnary;
    if numbers != [] {
      var n, more := numbers[0], PackAll(numbers[1..]);
      UnaryRoundTrip(n, more + rest);
      AllRoundTrip(numbers[1..], rest);
      assert PackAll(numbers) + rest == Unary(n) + (more + rest);
      assert (Unary(n) + (more + rest))[n + 1..] == more + rest;
      assert [n] + numbers[1..] == numbers;
    }
  }

  function Fields(b: Block): seq<nat> {
    [b.id.num, b.id.hash, b.previous.num, b.previous.hash]
  }

  function Unpacked(bytes: Bytes): Option<(Block, nat)> {
    match ReadAll(bytes, 4)
    case None => None
    case Some((f, used)) => Some((Block(BlockId(f[0], f[1]), BlockId(f[2], f[3])), used))
  }

  function Packing(): Codec<Block> {
    Codec((b: Block) => PackAll(Fields(b)), (bytes: Bytes) => Unpacked(bytes), (b: Block) => b.id.num)
  }

  lemma PackingOk()
    ensures CodecOk(Packing())
  {
    forall b: Block, rest: Bytes
      ensures Packing().unpack(Packing().pack(b) + rest) == Some((b, |Packing().pack(b)|)) && 0 < |Packing().pack(b)|
    {
      AllRoundTrip(Fields(b), rest);
      PackedLength(b);
    }
  }

  lemma PackedLength(b: Block)
    ensures |Packing().pack(b)| == 4 + b.id.num + b.id.hash + b.previous.num + b.previous.hash
  {
    var f := Fields(b);
    var g, h, i := f[1..], f[1..][1..], f[1..][1..][1..];
    assert PackAll(i[1..]) == [];
    assert |PackAll(i)| == f[3] + 1;
    assert |PackAll(h)| == f[2] + 1 + |PackAll(i)|;
    assert |PackAll(g)| == f[1] + 1 + |PackAll(h)|;
  }

  // ----- a log that follows its chain -----

  const FIRST := Block(BlockId(1, 0), NO_ID)
  const SECOND := Block(BlockId(2, 0), FIRST.id)

  /** After 22 blocks of one witness the first block is irreversible and is logged. */
  method FirstIsLogged() returns (log: Log.BlockLog<Block>, ok: bool)
    ensures fresh(log) && log.Valid() && ok && log.blocks == [FIRST]
  {
    hide Advances, Onward, LogOf, IndexOf, Position, CodecOk, Log.Chain, Log.Holds, Quorum, Recent;
    PackingOk();
    PackedLength(FIRST);
    log := new Log.BlockLog(Packing());
    var fork := new ForkDb();
    var _ := fork.Push(FIRST);
    var chain := new Irreversible("init", 0);
    var _ := chain.ApplyBlocks(seq(22, i => Turn("init", ["init"], {}, {})));
    ok := chain.FollowLog(log, fork);
  }

  // ----- an index that is not repaired -----

  /** The first entry is wrong and the last one right. */
  const WRONG_INDEX: Bytes := Word(1) + Word(13)

  lemma TwoBlocks()
    ensures var blocks := [FIRST, SECOND];
            && Log.Chain(Packing(), blocks) && Position(Packing(), blocks, 0) == 0 &&
               Position(Packing(), blocks, 1) == 13
  {
    PackingOk();
    PackedLength(FIRST);
    PackedLength(SECOND);
    var blocks := [FIRST, SECOND];
    assert Position(Packing(), blocks, 1) == 13;
    assert Position(Packing(), blocks, 2) == 28;
  }

  lemma TwoWords(first: nat, last: nat)
    requires first < TWO_64 && last < TWO_64
    ensures Log.WordAt(Word(first) + Word(last), 0) == Some(first)
    ensures Log.LastWord(Word(first) + Word(last)) == Some(last)
  {
    hide Value, Word;
    WordRoundTrip(first);
    WordRoundTrip(last);
    var file := Word(first) + Word(last);
    assert file[0..8] == Word(first) && file[8..16] == Word(last);
  }

  /** Such a file is not the index of the two blocks, and ends like the log. */
  lemma WrongWithRightEnd()
    ensures var blocks := [FIRST, SECOND];
            && WRONG_INDEX != IndexOf(Packing(), blocks, 2)
            && Log.LastWord(WRONG_INDEX) == Log.LastWord(LogOf(Packing(), blocks, 2))
  {
    hide Value, Word, LogOf, IndexOf, Position, Log.WordAt, Log.LastWord, Packing, CodecOk;
    var blocks := [FIRST, SECOND];
    TwoBlocks();
    Log.LastOfLog(Packing(), blocks);
    Log.WordOfIndex(Packing(), blocks, 2, 0);
    TwoWords(1, 13);
  }

  /** Opening these files succeeds and leaves the wrong index in place. */
  method WrongIndexStays() returns (log: Log.BlockLog<Block>, ok: bool)
    ensures fresh(log) && ok && log.blocks == [FIRST, SECOND] && !log.Valid()
  {
    hide LogOf, IndexOf, Position, CodecOk, Log.Chain;
    PackingOk();
    TwoBlocks();
    WrongWithRightEnd();
    log := new Log.BlockLog(Packing());
    ok := log.Open(LogOf(Packing(), [FIRST, SECOND], 2), WRONG_INDEX, [FIRST, SECOND]);
  }
}
