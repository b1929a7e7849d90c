/** The fork database: recent blocks of all forks, linked by their previous ids, and the head of the
    longest fork. */
module ForkDatabase {
  import opened Common

  /** The leading bytes of a block id are its number. */
  datatype BlockId = BlockId(num: nat, hash: nat)

  /** The id before the first block. */
  const NO_ID := BlockId(0, 0)

  datatype Block = Block(id: BlockId, previous: BlockId)

  type Index = map<BlockId, Block>

  predicate Numbered(b: Block) {
    b.id.num == b.previous.num + 1
  }

  ghost predicate IndexOk(index: Index) {
    forall id {:trigger index[id]} :: id in index ==> index[id].id == id && Numbered(index[id])
  }

  // ----- ancestors -----

  /** The id that block b has at height n on its chain, as far as the links lead back. */
  function AncestorAt(index: Index, b: Block, n: nat): Option<BlockId>
    requires IndexOk(index) && Numbered(b)
    decreases b.id.num
  {
    if n > b.previous.num then if n == b.id.num then Some(b.id) else None
    else if n == b.previous.num then Some(b.previous)
    else if b.previous in index then AncestorAt(index, index[b.previous], n)
    else None
  }

  /** The two blocks have the same ancestor at height n, below both. */
  ghost predicate MeetAt(index: Index, a: Block, b: Block, n: nat)
    requires IndexOk(index) && Numbered(a) && Numbered(b)
  {
    n < a.id.num && n < b.id.num && AncestorAt(index, a, n).Some? && AncestorAt(index, a, n) == AncestorAt(index, b, n)
  }

  /** Blocks of the index, each the parent of the one before. */
  ghost predicate IsBranch(index: Index, branch: seq<Block>) {
    && (forall i {:trigger branch[i]} :: 0 <= i < |branch| ==>
          branch[i].id in index && index[branch[i].id] == branch[i])
    && forall i {:trigger branch[i].previous} :: 0 <= i < |branch| - 1 ==> branch[i].previous == branch[i + 1].id
  }

  function Last(branch: seq<Block>): Block
    requires branch != []
  {
    branch[|branch| - 1]
  }

  /** What fetch_branch_from returns: two branches that end in blocks with the same parent, and no earlier pair
      of blocks at the same height has the same parent. */
  ghost predicate Forked(index: Index, a: seq<Block>, b: seq<Block>) {
    && a != [] && b != [] && IsBranch(index, a) && IsBranch(index, b)
    && Last(a).previous == Last(b).previous
    && Apart(a[..|a| - 1], b[..|b| - 1])
  }

  /** Counted from their ends, the blocks of the two branches have different parents. */
  ghost predicate Apart(a: seq<Block>, b: seq<Block>) {
    forall i {:trigger FromEnd(a, i)} :: 0 <= i < |a| && i < |b| ==> FromEnd(a, i).previous != FromEnd(b, i).previous
  }

  function FromEnd(a: seq<Block>, i: nat): Block
    requires i < |a|
  {
    a[|a| - 1 - i]
  }

  // ----- facts about branches -----

  lemma {:induction false} BranchNumbers(index: Index, a: seq<Block>, i: nat)
    requires IndexOk(index) && IsBranch(index, a) && i < |a|
    ensures Numbered(a[i]) && a[i].id.num + i == a[0].id.num
  {
    assert index[a[i].id] == a[i];
    if i > 0 {
      BranchNumbers(index, a, i - 1);
      assert a[i - 1].previous == a[i - 1 + 1].id;
    }
  }

  /** The blocks of a branch are the ancestors of its first block. */
  lemma {:induction false} BranchAncestors(index: Index, a: seq<Block>, i: nat)
    requires IndexOk(index) && IsBranch(index, a) && i < |a|
    ensures Numbered(a[0]) && Numbered(a[i])
    ensures AncestorAt(index, a[0], a[i].id.num) == Some(a[i].id)
    ensures AncestorAt(index, a[0], a[i].previous.num) == Some(a[i].previous)
    decreases i
  {
    BranchNumbers(index, a, 0);
    BranchNumbers(index, a, i);
    if i > 0 {
      var tail := a[1..];
      assert a[0].previous == a[0 + 1].id && index[a[1].id] == a[1];
      forall j | 0 <= j < |tail| - 1 ensures tail[j].previous == tail[j + 1].id {
        assert a[j + 1].previous == a[j + 1 + 1].id;
      }
      assert IsBranch(index, tail);
      BranchAncestors(index, tail, i - 1);
    }
  }

  /** The forked branches have their common parent as highest common ancestor, unless they end in the same block;
      and they end in the same block exactly when one starts at an ancestor of the other. */
  lemma HighestCommonAncestor(index: Index, a: seq<Block>, b: seq<Block>)
    requires IndexOk(index) && Forked(index, a, b)
    ensures Numbered(a[0]) && Numbered(b[0])
    ensures MeetAt(index, a[0], b[0], Last(a).previous.num)
    ensures AncestorAt(index, a[0], Last(a).previous.num) == Some(Last(a).previous)
    ensures Last(a) != Last(b) ==>
              forall n :: Last(a).previous.num < n && n <= a[0].id.num && n <= b[0].id.num ==>
                AncestorAt(index, a[0], n) != AncestorAt(index, b[0], n)
    ensures Last(a) == Last(b) <==>
              || AncestorAt(index, a[0], b[0].id.num) == Some(b[0].id)
              || AncestorAt(index, b[0], a[0].id.num) == Some(a[0].id)
  {
    BranchAncestors(index, a, |a| - 1);
    BranchAncestors(index, b, |b| - 1);
    BranchNumbers(index, a, |a| - 1);
    BranchNumbers(index, b, |b| - 1);
    if Last(a) != Last(b) {
      forall n: nat | Last(a).previous.num < n && n <= a[0].id.num && n <= b[0].id.num
        ensures AncestorAt(index, a[0], n) != AncestorAt(index, b[0], n)
      {
        DifferAt(index, a, b, n);
      }
    } else {
      SameEndIsShort(index, a, b);
    }
  }

  /** Above the common parent the two chains have different blocks. */
  lemma DifferAt(index: Index, a: seq<Block>, b: seq<Block>, n: nat)
    requires IndexOk(index) && Forked(index, a, b) && Last(a) != Last(b)
    requires Last(a).previous.num < n && n <= a[0].id.num && n <= b[0].id.num
    ensures Numbered(a[0]) && Numbered(b[0]) && AncestorAt(index, a[0], n) != AncestorAt(index, b[0], n)
  {
    BranchNumbers(index, a, |a| - 1);
    BranchNumbers(index, b, |b| - 1);
    var i, j := a[0].id.num - n, b[0].id.num - n;
    BranchNumbers(index, a, i);
    BranchNumbers(index, b, j);
    BranchAncestors(index, a, i);
    BranchAncestors(index, b, j);
    assert index[a[i].id] == a[i] && index[b[j].id] == b[j];
    if i < |a| - 1 {
      var k := |a| - 2 - i;
      assert FromEnd(a[..|a| - 1], k) == a[i] && FromEnd(b[..|b| - 1], k) == b[j];
    }
  }

  lemma LongBranchesDiffer(index: Index, a: seq<Block>, b: seq<Block>)
    requires Forked(index, a, b) && |a| > 1 && |b| > 1
    ensures Last(a) != Last(b)
  {
    assert a[|a| - 2].previous == a[|a| - 2 + 1].id;
    assert b[|b| - 2].previous == b[|b| - 2 + 1].id;
    assert FromEnd(a[..|a| - 1], 0) == a[|a| - 2] && FromEnd(b[..|b| - 1], 0) == b[|b| - 2];
  }

  /** Branches that end in the same block: one of them is only that block. */
  lemma SameEndIsShort(index: Index, a: seq<Block>, b: seq<Block>)
    requires IndexOk(index) && Forked(index, a, b) && Last(a) == Last(b)
    ensures |a| == 1 || |b| == 1
    ensures Numbered(a[0]) && Numbered(b[0])
    ensures AncestorAt(index, a[0], b[0].id.num) == Some(b[0].id) ||
            AncestorAt(index, b[0], a[0].id.num) == Some(a[0].id)
  {
    BranchNumbers(index, a, 0);
    BranchNumbers(index, b, 0);
    if |a| > 1 && |b| > 1 {
      LongBranchesDiffer(index, a, b);
    }
    BranchAncestors(index, a, |a| - 1);
    BranchAncestors(index, b, |b| - 1);
  }

  // ----- the database -----

  class ForkDb {
    var head: Option<Block>
    var index: Index
    var maxSize: nat

    constructor ()
      ensures Valid() && head == None && index == map[] && maxSize == 1024
    {
      head, index, maxSize := None, map[], 1024;
    }

    ghost predicate Valid()
      reads this
    {
      IndexOk(index) && (head.Some? ==> Numbered(head.value))
    }

    /** A block's parent, if the index still has it. */
    function Parent(b: Block): Option<Block>
      reads this
    {
      if b.previous in index then Some(index[b.previous]) else None
    }

    /** pop_block: the head moves to its parent, whichever block it is on. */
    method Pop() returns (ok: bool)
      requires Valid()
      modifies this`head
      ensures Valid() && (ok <==> old(head).Some? && old(head).value.previous in index)
      ensures head == if ok then Some(index[old(head).value.previous]) else old(head)
    {
      if head.None? || Parent(head.value).None? {
        return false;
      }
      assert index[head.value.previous] == index[head.value.previous];
      head := Parent(head.value);
      ok := true;
    }

    /** _push_block: too old and unlinkable blocks are refused; a higher block becomes the head. */
    method Push(b: Block) returns (ok: bool)
      requires Valid() && Numbered(b)
      modifies this`head, this`index
      ensures Valid()
      ensures ok <==> old(head).Some? ==>
                && b.id.num > Oldest(old(head).value.id.num, maxSize)
                && (b.previous != NO_ID ==> b.previous in old(index))
      ensures !ok ==> head == old(head) && index == old(index)
      ensures ok ==> index == Inserted(old(index), b)
      ensures ok ==> head == if old(head).None? || b.id.num > old(head).value.id.num then Some(b) else old(head)
    {
      if head.Some? {
        if b.id.num <= Oldest(head.value.id.num, maxSize) {
          return false;
        }
        if b.previous != NO_ID && b.previous !in index {
          return false;
        }
      }
      index := Inserted(index, b);
      if head.None? || b.id.num > head.value.id.num {
        head := Some(b);
      }
      ok := true;
    }

    method SetHead(b: Block)
      requires Valid() && Numbered(b)
      modifies this`head
      ensures Valid() && head == Some(b)
    {
      head := Some(b);
    }

    /** remove: the head is left alone. */
    method Remove(id: BlockId)
      requires Valid()
      modifies this`index
      ensures Valid() && index == old(index) - {id}
    {
      FewerIsFine(index, {id});
      index := index - {id};
    }

    /** set_max_size: blocks too far below the head are dropped. */
    method SetMaxSize(size: nat)
      requires Valid()
      modifies this`index, this`maxSize
      ensures Valid() && maxSize == size
      ensures index == if head.None? then old(index) else Recent(old(index), Oldest(head.value.id.num, size))
    {
      maxSize := size;
      if head.None? {
        return;
      }
      var bound := Oldest(head.value.id.num, maxSize);
      while exists id :: id in index && id.num < bound
        invariant Valid() && maxSize == size && Recent(index, bound) == Recent(old(index), bound)
        invariant index.Keys <= old(index).Keys
        decreases |index|
      {
        var id :| id in index && id.num < bound;
        FewerIsFine(index, {id});
        assert (index - {id}).Keys == index.Keys - {id};
        index := index - {id};
      }
      NoneTooOld(index, bound);
    }

    /** fetch_branch_from. It succeeds exactly when both blocks are known and meet in a common ancestor below both
        that their links still reach. */
    method FetchBranchFrom(first: BlockId, second: BlockId) returns (r: Option<(seq<Block>, seq<Block>)>)
      requires Valid()
      ensures r.Some? <==>
                first in index && second in index && exists n :: MeetAt(index, index[first], index[second], n)
      ensures r.Some? ==> Forked(index, r.value.0, r.value.1) && r.value.0[0].id == first && r.value.1[0].id == second
    {
      if first !in index || second !in index {
        return None;
      }
      hide AncestorAt, Reaches;
      var a: seq<Block>, b: seq<Block> := [], [];
      var f, s := index[first], index[second];
      StartsAt(index, f, a);
      StartsAt(index, s, b);
      while f.id.num > s.id.num
        invariant Reaches(index, index[first], a, f) && (a != [] ==> f.id.num >= s.id.num)
        invariant KnownBlock(index, f) && MeetsKept(index, index[first], index[second], f, s)
        decreases f.id.num
      {
        a := a + [f];
        MeetHigher(index, index[first], index[second], f, s);
        if f.previous !in index {
          return None;
        }
        Climb(index, index[first], a[..|a| - 1], f);
        f := index[f.previous];
      }
      while s.id.num > f.id.num
        invariant Reaches(index, index[second], b, s)
        invariant f.id.num <= s.id.num && (a != [] ==> f.id.num == s.id.num) && (a == [] || b == [])
        invariant KnownBlock(index, s) && MeetsKept(index, index[first], index[second], f, s)
        decreases s.id.num
      {
        b := b + [s];
        MeetHigher(index, index[first], index[second], f, s);
        if s.previous !in index {
          return None;
        }
        Climb(index, index[second], b[..|b| - 1], s);
        s := index[s.previous];
      }
      while f.previous != s.previous
        invariant Reaches(index, index[first], a, f) && Reaches(index, index[second], b, s)
        invariant f.id.num == s.id.num && Apart(a, b)
        invariant KnownBlock(index, f) && KnownBlock(index, s) && MeetsKept(index, index[first], index[second], f, s)
        decreases f.id.num
      {
        StillApart(a, b, f, s);
        a, b := a + [f], b + [s];
        MeetHigher(index, index[first], index[second], f, s);
        if f.previous !in index || s.previous !in index {
          return None;
        }
        Climb(index, index[first], a[..|a| - 1], f);
        Climb(index, index[second], b[..|b| - 1], s);
        f, s := index[f.previous], index[s.previous];
      }
      Meeting(index, index[first], index[second], a, b, f, s);
      return Some((a + [f], b + [s]));
    }

    /** walk_main_branch_to_num */
    method WalkMainBranch(n: nat) returns (r: Option<Block>)
      requires Valid() && head.Some?
      ensures r == OnMainBranch(index, head.value, n)
    {
      if n > head.value.id.num {
        return None;
      }
      var next := head.value;
      while next.id.num > n
        invariant Numbered(next) && n <= next.id.num
        invariant OnMainBranch(index, next, n) == OnMainBranch(index, head.value, n)
        decreases next.id.num
      {
        if Parent(next).None? {
          return None;
        }
        assert index[next.previous].id == next.previous;
        next := Parent(next).value;
      }
      return Some(next);
    }

    /** fetch_block_on_main_branch_by_number. It gives the main branch's block, except that a block which is alone
        at its number is given even if the main branch does not reach it, and that a head which is no longer in the
        index is given only if two others have its number. */
    method FetchOnMainBranch(n: nat) returns (r: Option<Block>)
      requires Valid() && head.Some?
      ensures r == OnMainBranch(index, head.value, n) <==>
                if StrayHead(index, head.value, n) then |AtNumber(index, n)| > 1
                else !(|AtNumber(index, n)| == 1 && OnMainBranch(index, head.value, n).None?)
      ensures r.Some? ==> (KnownBlock(index, r.value) || r == head) && r.value.id.num == n
      ensures r.None? ==> OnMainBranch(index, head.value, n).None? || StrayHead(index, head.value, n)
    {
      MainIsAtNumber(index, head.value, n);
      var blocks := AtNumber(index, n);
      ghost var main := OnMainBranch(index, head.value, n);
      assert main.Some? && !StrayHead(index, head.value, n) ==>
          main.value.id in blocks && index[main.value.id] == main.value;
      if |blocks| == 1 {
        var id :| id in blocks;
        assert forall other :: other in blocks ==> other == id by { OnlyOne(blocks, id); }
        assert index[id].id == id;
        return Some(index[id]);
      }
      if |blocks| == 0 {
        return None;
      }
      r := WalkMainBranch(n);
    }
  }

  function AtNumber(index: Index, n: nat): set<BlockId> {
    set id | id in index && id.num == n
  }

  /** The head has this number but was removed, as a block that does not apply is. */
  predicate StrayHead(index: Index, head: Block, n: nat) {
    n == head.id.num && !KnownBlock(index, head)
  }

  /** The block at height n on the chain of b, b itself or one that the index has. */
  function OnMainBranch(index: Index, b: Block, n: nat): Option<Block>
    requires IndexOk(index) && Numbered(b)
  {
    if n == b.id.num then Some(b)
    else
      match AncestorAt(index, b, n)
      case None => None
      case Some(id) => if id in index then Some(index[id]) else None
  }

  lemma {:induction false} MainIsAtNumber(index: Index, b: Block, n: nat)
    requires IndexOk(index) && Numbered(b)
    ensures var r := OnMainBranch(index, b, n);
            r.Some? ==> r.value.id.num == n && if n == b.id.num then r.value == b else KnownBlock(index, r.value)
    decreases b.id.num
  {
    if b.previous in index {
      assert index[b.previous].id == b.previous;
      MainIsAtNumber(index, index[b.previous], n);
    }
  }

  lemma OnlyOne<T>(s: set<T>, x: T)
    requires |s| == 1 && x in s
    ensures s == {x}
  {
    assert |s - {x}| == 0;
  }

  /** The exception is real: after the head was popped to block 1, a lone block 2 is still given for number 2. */
  lemma LoneBlockAboveHead()
    ensures var one := Block(BlockId(1, 7), NO_ID);
            var two := Block(BlockId(2, 8), one.id);
            var index := map[one.id := one, two.id := two];
            IndexOk(index) && KnownBlock(index, one) && AtNumber(index, 2) == {two.id} &&
              OnMainBranch(index, one, 2).None?
  {
  }

  /** No block at or below this number may still be pushed. */
  function Oldest(head: nat, maxSize: nat): nat {
    if head > maxSize then head - maxSize else 0
  }

  /** An id already known keeps its block. */
  function Inserted(index: Index, b: Block): Index {
    if b.id in index then index else index[b.id := b]
  }

  function Recent(index: Index, bound: nat): Index {
    map id | id in index && id.num >= bound :: index[id]
  }

  lemma NoneTooOld(index: Index, bound: nat)
    requires !exists id :: id in index && id.num < bound
    ensures Recent(index, bound) == index
  {
    forall id | id in index ensures id.num >= bound {
    }
  }

  lemma FewerIsFine(index: Index, ids: set<BlockId>)
    requires IndexOk(index)
    ensures IndexOk(index - ids)
  {
    forall id | id in index - ids ensures (index - ids)[id].id == id && Numbered((index - ids)[id]) {
      assert index[id].id == id;
    }
  }

  /** `branch` leads from b to just above `now`. */
  ghost predicate Reaches(index: Index, b: Block, branch: seq<Block>, now: Block) {
    IsBranch(index, branch + [now]) && (branch + [now])[0] == b
  }

  predicate KnownBlock(index: Index, b: Block) {
    b.id in index && index[b.id] == b && Numbered(b)
  }

  lemma StartsAt(index: Index, b: Block, none: seq<Block>)
    requires KnownBlock(index, b) && none == []
    ensures Reaches(index, b, none, b)
  {
  }

  lemma Climb(index: Index, b: Block, branch: seq<Block>, now: Block)
    requires IndexOk(index) && Reaches(index, b, branch, now) && now.previous in index
    ensures Reaches(index, b, branch + [now], index[now.previous]) && KnownBlock(index, index[now.previous])
  {
    var longer := branch + [now] + [index[now.previous]];
    forall i | 0 <= i < |longer| - 1 ensures longer[i].previous == longer[i + 1].id {
      if i < |branch| {
        assert (branch + [now])[i].previous == (branch + [now])[i + 1].id;
      }
    }
    forall i | 0 <= i < |longer| ensures longer[i].id in index && index[longer[i].id] == longer[i] {
      if i <= |branch| {
        assert longer[i] == (branch + [now])[i];
      }
    }
  }

  /** Wherever a and b meet, f and s meet too. */
  ghost predicate MeetsKept(index: Index, a: Block, b: Block, f: Block, s: Block) {
    && IndexOk(index) && Numbered(a) && Numbered(b) && Numbered(f) && Numbered(s)
    && forall n :: MeetAt(index, a, b, n) ==> MeetAt(index, f, s, n)
  }

  /** Going up from the higher of two blocks, or from both at the same height when their parents differ, passes
      no meeting point; and where there is one, the parent is known. */
  lemma MeetHigher(index: Index, a: Block, b: Block, f: Block, s: Block)
    requires MeetsKept(index, a, b, f, s)
    ensures f.id.num > s.id.num ==>
              if f.previous in index then MeetsKept(index, a, b, index[f.previous], s)
              else !exists n :: MeetAt(index, a, b, n)
    ensures s.id.num > f.id.num ==>
              if s.previous in index then MeetsKept(index, a, b, f, index[s.previous])
              else !exists n :: MeetAt(index, a, b, n)
    ensures f.id.num == s.id.num && f.previous != s.previous ==>
              if f.previous in index && s.previous in index then
                MeetsKept(index, a, b, index[f.previous], index[s.previous])
              else !exists n :: MeetAt(index, a, b, n)
  {
    forall n | MeetAt(index, a, b, n)
      ensures f.id.num > s.id.num ==> f.previous in index && MeetAt(index, index[f.previous], s, n)
      ensures s.id.num > f.id.num ==> s.previous in index && MeetAt(index, f, index[s.previous], n)
      ensures f.id.num == s.id.num && f.previous != s.previous ==>
                f.previous in index && s.previous in index && MeetAt(index, index[f.previous], index[s.previous], n)
    {
      assert MeetAt(index, f, s, n);
      if f.previous in index { assert Numbered(index[f.previous]); }
      if s.previous in index { assert Numbered(index[s.previous]); }
    }
    if f.previous in index { assert Numbered(index[f.previous]); }
    if s.previous in index { assert Numbered(index[s.previous]); }
  }

  /** Two walks that have come to blocks with the same parent. */
  lemma Meeting(index: Index, first: Block, second: Block, a: seq<Block>, b: seq<Block>, f: Block, s: Block)
    requires IndexOk(index) && Reaches(index, first, a, f) && Reaches(index, second, b, s)
    requires f.previous == s.previous && Apart(a, b)
    ensures Forked(index, a + [f], b + [s]) && (a + [f])[0] == first && (b + [s])[0] == second
    ensures Numbered(first) && Numbered(second) && exists n :: MeetAt(index, first, second, n)
  {
    assert (a + [f])[..|a|] == a && (b + [s])[..|b|] == b;
    HighestCommonAncestor(index, a + [f], b + [s]);
  }

  lemma StillApart(a: seq<Block>, b: seq<Block>, f: Block, s: Block)
    requires Apart(a, b) && f.previous != s.previous
    ensures Apart(a + [f], b + [s])
  {
    forall i | 0 <= i < |a + [f]| && i < |b + [s]|
      ensures FromEnd(a + [f], i).previous != FromEnd(b + [s], i).previous
    {
      if i > 0 {
        assert FromEnd(a, i - 1) == FromEnd(a + [f], i) && FromEnd(b, i - 1) == FromEnd(b + [s], i);
      }
    }
  }
}
