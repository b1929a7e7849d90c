/** The last irreversible block: a quorum of the scheduled witnesses has built on it, it never goes back, and the
    block log follows it. */
module Irreversibility {
  import opened Arith
  import opened Common
  import opened BlockLogFormat
  import Log = BlockLog
  import opened ForkDatabase
  import Rounds

  /** STEEMIT_START_MINER_VOTING_BLOCK */
  const VOTING_START: nat := 200

  /** STEEMIT_IRREVERSIBLE_THRESHOLD, 75% */
  const THRESHOLD: nat := 7500

  /** STEEMIT_TRANSIT_REQUIRED_WITNESSES */
  const TRANSIT_REQUIRED: nat := 16

  // ----- order statistics -----

  predicate Ordered(s: seq<nat>) {
    forall i, j :: 0 <= i < j < |s| ==> s[i] <= s[j]
  }

  function Insert(x: nat, s: seq<nat>): seq<nat> {
    if s == [] || x <= s[0] then [x] + s else [s[0]] + Insert(x, s[1..])
  }

  function Sort(s: seq<nat>): seq<nat> {
    if s == [] then [] else Insert(s[0], Sort(s[1..]))
  }

  /** How many values are at least x. */
  function AtLeast(s: seq<nat>, x: nat): nat {
    if s == [] then 0 else (if s[0] >= x then 1 else 0) + AtLeast(s[1..], x)
  }

  lemma {:induction false} InsertKeeps(v: nat, s: seq<nat>, x: nat)
    requires Ordered(s)
    ensures Ordered(Insert(v, s)) && |Insert(v, s)| == |s| + 1
    ensures AtLeast(Insert(v, s), x) == AtLeast(s, x) + (if v >= x then 1 else 0)
    ensures forall y :: y in Insert(v, s) ==> y == v || y in s
  {
    if s == [] || v <= s[0] {
      assert ([v] + s)[1..] == s;
    } else {
      InsertKeeps(v, s[1..], x);
      var r := Insert(v, s[1..]);
      assert ([s[0]] + r)[1..] == r;
      forall i | 0 <= i < |r| ensures s[0] <= r[i] {
        assert r[i] in r;
      }
    }
  }

  lemma {:induction false} SortKeeps(s: seq<nat>, x: nat)
    ensures Ordered(Sort(s)) && |Sort(s)| == |s| && AtLeast(Sort(s), x) == AtLeast(s, x)
  {
    if s != [] {
      SortKeeps(s[1..], x);
      InsertKeeps(s[0], Sort(s[1..]), x);
    }
  }

  lemma {:induction false} OrderedCount(s: seq<nat>, k: nat, x: nat)
    requires Ordered(s) && k < |s|
    ensures AtLeast(s, x) >= |s| - k <==> x <= s[k]
  {
    if k > 0 {
      OrderedCount(s[1..], k - 1, x);
      CountWithin(s[1..], x);
      if s[0] >= x {
        AllCounted(s[1..], x);
      }
    } else if x <= s[0] {
      AllCounted(s[1..], x);
    } else {
      CountWithin(s[1..], x);
    }
  }

  lemma {:induction false} CountWithin(s: seq<nat>, x: nat)
    ensures AtLeast(s, x) <= |s|
  {
    if s != [] {
      CountWithin(s[1..], x);
    }
  }

  lemma {:induction false} AllCounted(s: seq<nat>, x: nat)
    requires forall i :: 0 <= i < |s| ==> s[i] >= x
    ensures AtLeast(s, x) == |s|
  {
    if s != [] {
      AllCounted(s[1..], x);
    }
  }

  /** What std::nth_element leaves at position k. */
  function NthSmallest(s: seq<nat>, k: nat): nat
    requires k < |s|
  {
    SortKeeps(s, 0);
    Sort(s)[k]
  }

  /** The k-th smallest value is the highest one that all but k of the values reach. */
  lemma NthIsQuorum(s: seq<nat>, k: nat, x: nat)
    requires k < |s|
    ensures x <= NthSmallest(s, k) <==> AtLeast(s, x) >= |s| - k
  {
    SortKeeps(s, x);
    OrderedCount(Sort(s), k, x);
  }

  // ----- the rule -----

  /** How many of the scheduled witnesses may lag behind. */
  function Offset(n: nat): nat {
    (HUNDRED_PERCENT - THRESHOLD) * n / HUNDRED_PERCENT
  }

  /** All but that many are exactly enough to make the threshold. */
  lemma OffsetIsThreshold(n: nat, count: nat)
    requires n > 0 && count <= n
    ensures Offset(n) < n
    ensures count >= n - Offset(n) <==> HUNDRED_PERCENT * count >= THRESHOLD * n
  {
  }

  function Confirmations(confirmed: map<Name, nat>, schedule: seq<Name>): seq<nat>
    requires forall w :: w in schedule ==> w in confirmed
  {
    seq(|schedule|, i requires 0 <= i < |schedule| => assert schedule[i] in schedule; confirmed[schedule[i]])
  }

  /** At least three quarters of the scheduled witnesses have built on block x. */
  ghost predicate Quorum(confirmed: map<Name, nat>, schedule: seq<Name>, x: nat)
    requires forall w :: w in schedule ==> w in confirmed
  {
    HUNDRED_PERCENT * AtLeast(Confirmations(confirmed, schedule), x) >= THRESHOLD * |schedule|
  }

  /** The scheduled witnesses that have built on block x. */
  ghost function Builders(confirmed: map<Name, nat>, schedule: seq<Name>, x: nat): set<Name> {
    set w | w in schedule && w in confirmed && confirmed[w] >= x
  }

  lemma {:induction false} BuildersCounted(confirmed: map<Name, nat>, schedule: seq<Name>, x: nat)
    requires Rounds.Distinct(schedule) && forall w :: w in schedule ==> w in confirmed
    ensures |Builders(confirmed, schedule, x)| == AtLeast(Confirmations(confirmed, schedule), x)
  {
    if schedule != [] {
      var rest, w := schedule[1..], schedule[0];
      BuildersCounted(confirmed, rest, x);
      assert Confirmations(confirmed, schedule)[1..] == Confirmations(confirmed, rest);
      OneMoreBuilder(confirmed, schedule, x);
    }
  }

  lemma OneMoreBuilder(confirmed: map<Name, nat>, schedule: seq<Name>, x: nat)
    requires schedule != [] && Rounds.Distinct(schedule) && forall w :: w in schedule ==> w in confirmed
    ensures |Builders(confirmed, schedule, x)|
         == |Builders(confirmed, schedule[1..], x)| + if confirmed[schedule[0]] >= x then 1 else 0
  {
    var rest, w := schedule[1..], schedule[0];
    assert schedule == [w] + rest && w !in rest;
    if confirmed[w] >= x {
      assert Builders(confirmed, schedule, x) == Builders(confirmed, rest, x) + {w};
    } else {
      assert Builders(confirmed, schedule, x) == Builders(confirmed, rest, x);
    }
  }

  /** Two quorums of one schedule, whatever branches they confirm, have half of the witnesses in common. */
  lemma QuorumsOverlap(confirmed: map<Name, nat>, confirmed': map<Name, nat>, schedule: seq<Name>, x: nat, y: nat)
    requires Rounds.Distinct(schedule) && forall w :: w in schedule ==> w in confirmed && w in confirmed'
    requires Quorum(confirmed, schedule, x) && Quorum(confirmed', schedule, y)
    ensures 2 * |Builders(confirmed, schedule, x) * Builders(confirmed', schedule, y)| >= |schedule|
  {
    BuildersCounted(confirmed, schedule, x);
    BuildersCounted(confirmed', schedule, y);
    var a, b, all := Builders(confirmed, schedule, x), Builders(confirmed', schedule, y), set w | w in schedule;
    Rounds.CountDistinct(schedule);
    Rounds.Within(a + b, all);
    assert |a + b| == |a| + |b| - |a * b|;
  }

  class Irreversible {
    var head: nat                       // head_block_num
    var last: nat                       // last_irreversible_block_num
    var fixed: nat                      // _fixed_irreversible_block_num
    var transit: Option<nat>            // transit_block_num, once enabled
    var confirmed: map<Name, nat>       // last_confirmed_block_num
    var schedule: seq<Name>             // the scheduled witnesses

    ghost predicate Valid()
      reads this
    {
      && last <= head && (head < VOTING_START ==> last == EarlyLast(head))
      && schedule != [] && (forall w :: w in schedule ==> w in confirmed)
      && forall w {:trigger confirmed[w]} :: w in confirmed ==> confirmed[w] <= head
    }

    constructor (signer: Name, fixed: nat)
      ensures Valid() && head == 0 && last == 0 && confirmed.Keys == {signer}
    {
      head, last, transit, confirmed, schedule := 0, 0, None, map[signer := 0], [signer];
      this.fixed := fixed;
    }

    /** A block is applied: its signer confirms it, then the irreversible number is worked out anew. */
    method ApplyBlock(signer: Name)
      requires Valid() && signer in confirmed
      modifies this`head, this`confirmed, this`last
      ensures Valid() && head == old(head) + 1 && confirmed == old(confirmed)[signer := head]
      ensures last >= old(last)
      ensures transit.Some? && old(last) < transit.value && head >= VOTING_START ==> last <= transit.value
      ensures last > old(last) && head >= VOTING_START ==> last <= fixed && Quorum(confirmed, schedule, last)
      ensures head >= VOTING_START ==>
                forall x: nat :: old(last) < x <= fixed && Quorum(confirmed, schedule, x) ==>
                  x <= last || (transit == Some(last) && old(last) < last)
    {
      head := head + 1;
      confirmed := confirmed[signer := head];
      UpdateLast();
    }

    /** The first part of update_last_irreversible_block. */
    method UpdateLast()
      requires head > 0 && last < head && (head - 1 < VOTING_START ==> last == EarlyLast(head - 1))
      requires schedule != [] && (forall w :: w in schedule ==> w in confirmed)
      requires forall w {:trigger confirmed[w]} :: w in confirmed ==> confirmed[w] <= head
      modifies this`last
      ensures Valid() && last >= old(last)
      ensures transit.Some? && old(last) < transit.value && head >= VOTING_START ==> last <= transit.value
      ensures last > old(last) && head >= VOTING_START ==> last <= fixed && Quorum(confirmed, schedule, last)
      ensures head >= VOTING_START ==>
                forall x: nat :: old(last) < x <= fixed && Quorum(confirmed, schedule, x) ==>
                  x <= last || (transit == Some(last) && old(last) < last)
    {
      if head < VOTING_START {
        if head > Rounds.MAX_WITNESSES {
          last := head - Rounds.MAX_WITNESSES;
        }
        return;
      }
      var values := Confirmations(confirmed, schedule);
      OffsetIsThreshold(|values|, 0);
      var nth := NthSmallest(values, Offset(|values|));
      var next := if nth < fixed then nth else fixed;
      forall x: nat ensures x <= nth <==> Quorum(confirmed, schedule, x) {
        NthIsQuorum(values, Offset(|values|), x);
        CountWithin(values, x);
        OffsetIsThreshold(|values|, AtLeast(values, x));
      }
      if next > last {
        NthWithin(values, Offset(|values|), head);
        if transit.Some? && transit.value > last && transit.value <= next {
          next := transit.value;
        }
        last := next;
      }
    }

    /** The second part of update_last_irreversible_block: the log is filled up to the irreversible block from the
        fork database, and the fork database then drops what is older. Where the main branch has a block of that
        number, it is the one that is logged. */
    method FollowLog(log: Log.BlockLog<Block>, fork: ForkDb) returns (ok: bool)
      requires Valid() && last < TWO_32
      requires log.Valid() && forall b: Block :: log.codec.num(b) == b.id.num
      requires fork.Valid() && fork.head.Some? && BlocksFit(log.codec, fork.index, fork.head.value)
      modifies log, fork`index, fork`maxSize
      ensures log.Valid() && fork.Valid() && old(log.blocks) <= log.blocks
      ensures Follows(old(fork.index), old(fork.head).value, log.blocks, |old(log.blocks)|)
      ensures |log.blocks| <= Larger(last, |old(log.blocks)|)
      ensures (ok ==> |log.blocks| == Larger(last, |old(log.blocks)|))
      ensures !ok ==> var n := |log.blocks| + 1;
                      n <= last && (|| OnMainBranch(old(fork.index), old(fork.head).value, n).None?
                                    || StrayHead(old(fork.index), old(fork.head).value, n))
      ensures fork.index == if ok then Recent(old(fork.index), Oldest(fork.head.value.id.num, head - last + 1))
                            else old(fork.index)
    {
      hide Log.Chain, Log.Holds, LogOf, IndexOf, Position, OnMainBranch, IndexOk, AtNumber, KnownBlock, StrayHead;
      LogHead(log);
      var logged := match log.head case None => 0 case Some(b) => log.codec.num(b);
      while logged < last
        invariant log.Valid() && logged == |log.blocks| && old(log.blocks) <= log.blocks
        invariant logged <= Larger(last, |old(log.blocks)|)
        invariant fork.index == old(fork.index) && fork.head == old(fork.head) && fork.Valid()
        invariant Follows(fork.index, fork.head.value, log.blocks, |old(log.blocks)|)
      {
        var block := fork.FetchOnMainBranch(logged + 1);
        if block.None? {
          return false;
        }
        FetchedFits(log.codec, fork.index, fork.head.value, block.value);
        RoomInLog(log.codec, log.blocks, block.value);
        var _ := log.Append(block.value);
        logged := logged + 1;
      }
      fork.SetMaxSize(head - last + 1);
      ok := true;
    }

    /** process_transit_to_cyberway: once enough of the scheduled witnesses are elected ones that vote for it, this
        block becomes the transit block. */
    method EnableTransit(top: set<Name>, voting: set<Name>)
      requires Valid()
      modifies this`transit
      ensures Valid() && transit == Decided(old(transit), schedule, top, voting, head)
    {
      if transit.None? {
        var asking: seq<Name> := [];
        for i := 0 to |schedule|
          invariant asking == Asking(schedule[..i], top, voting)
        {
          assert schedule[..i + 1][..i] == schedule[..i];
          if schedule[i] in top {
            if schedule[i] in voting {
              asking := asking + [schedule[i]];
            }
          }
        }
        assert schedule[..|schedule|] == schedule;
        if |asking| >= TRANSIT_REQUIRED {
          transit := Some(head);
        }
      }
    }

    /** A run of blocks, each by some witness and followed by some schedule. `course` is how things stood after each:
        the irreversible number never goes back and only advances to what a quorum confirms, and the transit block is
        fixed at most once and never jumped over. */
    method ApplyBlocks(turns: seq<Turn>) returns (ghost course: seq<Moment>)
      requires Valid() && forall i {:trigger turns[i]} :: 0 <= i < |turns| ==> TurnOk(turns[i], confirmed.Keys)
      modifies this`head, this`confirmed, this`last, this`schedule, this`transit
      ensures Valid() && head == old(head) + |turns|
      ensures |course| == |turns| + 1 && course[0] == old(Now()) && course[|turns|] == Now()
      ensures forall i :: 0 <= i < |turns| ==> Advances(course[i], course[i + 1], turns[i], old(head) + i + 1)
      ensures forall i, j :: 0 <= i < j < |course| ==> Onward(course[i], course[j])
    {
      hide Advances, Quorum, Decided;
      course := [Now()];
      for n := 0 to |turns|
        invariant Valid() && head == old(head) + n && confirmed.Keys == old(confirmed).Keys
        invariant |course| == n + 1 && course[0] == old(Now()) && course[n] == Now()
        invariant forall i :: 0 <= i < n ==> Advances(course[i], course[i + 1], turns[i], old(head) + i + 1)
        invariant forall i, j :: 0 <= i < j < |course| ==> Onward(course[i], course[j])
      {
        Take(turns[n]);
        course := course + [Now()];
        GoesOn(course, turns[n], head);
      }
    }

    ghost function Now(): Moment
      reads this
    {
      Moment(last, transit, confirmed, schedule)
    }

    /** One block: confirmed and counted, then the next schedule, then the vote on the transit. */
    method Take(t: Turn)
      requires Valid() && TurnOk(t, confirmed.Keys)
      modifies this`head, this`confirmed, this`last, this`schedule, this`transit
      ensures Valid() && head == old(head) + 1 && confirmed.Keys == old(confirmed).Keys
      ensures Advances(old(Now()), Now(), t, head)
    {
      hide Quorum;
      ApplyBlock(t.signer);
      schedule := t.schedule;
      EnableTransit(t.top, t.voting);
    }
  }

  /** Who signs a block, the schedule after it, and which witnesses are elected and which vote for the transit. */
  datatype Turn = Turn(signer: Name, schedule: seq<Name>, top: set<Name>, voting: set<Name>)

  datatype Moment = Moment(last: nat, transit: Option<nat>, confirmed: map<Name, nat>, schedule: seq<Name>)

  ghost predicate TurnOk(t: Turn, names: set<Name>) {
    t.signer in names && t.schedule != [] && forall w :: w in t.schedule ==> w in names
  }

  /** The scheduled witnesses that are elected and vote for the transit. */
  function Asking(schedule: seq<Name>, top: set<Name>, voting: set<Name>): seq<Name> {
    if schedule == [] then []
    else
      var rest, w := Asking(schedule[..|schedule| - 1], top, voting), schedule[|schedule| - 1];
      if w in top * voting then rest + [w] else rest
  }

  function Decided(transit: Option<nat>, schedule: seq<Name>, top: set<Name>, voting: set<Name>,
                   head: nat): Option<nat> {
    if transit.None? && |Asking(schedule, top, voting)| >= TRANSIT_REQUIRED then Some(head) else transit
  }

  /** What one block does. */
  ghost predicate Advances(before: Moment, after: Moment, t: Turn, head: nat) {
    && after.confirmed == before.confirmed[t.signer := head] && after.schedule == t.schedule
    && after.transit == Decided(before.transit, t.schedule, t.top, t.voting, head)
    && before.last <= after.last
    && (forall w :: w in before.schedule ==> w in after.confirmed)
    && (head >= VOTING_START && before.last < after.last ==> Quorum(after.confirmed, before.schedule, after.last))
    && (head >= VOTING_START && before.transit.Some? && before.last < before.transit.value ==>
          after.last <= before.transit.value)
  }

  /** Nothing irreversible is taken back, and a transit block stays. */
  ghost predicate Onward(before: Moment, after: Moment) {
    before.last <= after.last && (before.transit.Some? ==> after.transit == before.transit)
  }

  lemma GoesOn(course: seq<Moment>, t: Turn, head: nat)
    requires |course| > 1 && Advances(course[|course| - 2], course[|course| - 1], t, head)
    requires forall i, j :: 0 <= i < j < |course| - 1 ==> Onward(course[i], course[j])
    ensures forall i, j :: 0 <= i < j < |course| ==> Onward(course[i], course[j])
  {
    var last := |course| - 1;
    forall i, j | 0 <= i < j < |course| ensures Onward(course[i], course[j]) {
      if j == last && i < last - 1 {
        assert Onward(course[i], course[last - 1]);
      }
    }
  }

  const TWO_32: nat := 0x1_0000_0000

  lemma LogHead(log: Log.BlockLog<Block>)
    requires log.Valid()
    ensures match log.head case None => log.blocks == [] case Some(b) => log.codec.num(b) == |log.blocks|
  {
    if log.blocks != [] {
      assert log.blocks[|log.blocks| - 1] == log.blocks[|log.blocks| - 1];
    }
  }

  function Larger(a: nat, b: nat): nat {
    if a >= b then a else b
  }

  /** No block of the fork database is too big to be read back. */
  ghost predicate BlocksFit(c: Codec<Block>, index: Index, head: Block) {
    |c.pack(head)| <= MAX_BLOCK_SIZE && forall id :: id in index ==> |c.pack(index[id])| <= MAX_BLOCK_SIZE
  }

  lemma FetchedFits(c: Codec<Block>, index: Index, head: Block, b: Block)
    requires BlocksFit(c, index, head) && (KnownBlock(index, b) || b == head)
    ensures |c.pack(b)| <= MAX_BLOCK_SIZE
  {
  }

  /** From number n on, each logged block is one of the fork database, and the one of the main branch if that has the
      number; only a head removed from the fork database may be missed. */
  ghost predicate Follows(index: Index, head: Block, blocks: seq<Block>, n: nat)
    requires IndexOk(index) && Numbered(head)
  {
    forall i {:trigger blocks[i]} :: n <= i < |blocks| ==>
      && (KnownBlock(index, blocks[i]) || blocks[i] == head)
      && (OnMainBranch(index, head, i + 1) in {None, Some(blocks[i])} || StrayHead(index, head, i + 1))
  }

  /** Fewer than 2^32 blocks of bounded size never exceed 64-bit positions. */
  lemma RoomInLog(c: Codec<Block>, blocks: seq<Block>, next: Block)
    requires Log.Chain(c, blocks) && |blocks| < TWO_32 && |c.pack(next)| <= MAX_BLOCK_SIZE
    ensures Position(c, blocks + [next], |blocks| + 1) < TWO_64
  {
    var longer := blocks + [next];
    forall i | 0 <= i < |longer| ensures |c.pack(longer[i])| <= MAX_BLOCK_SIZE {
      if i < |blocks| {
        assert longer[i] == blocks[i];
      }
    }
    PositionBound(c, longer, |longer|);
    MulMono(|longer|, TWO_32, MAX_BLOCK_SIZE + 8);
  }

  lemma {:induction false} PositionBound(c: Codec<Block>, blocks: seq<Block>, n: nat)
    requires n <= |blocks| && forall i {:trigger blocks[i]} :: 0 <= i < n ==> |c.pack(blocks[i])| <= MAX_BLOCK_SIZE
    ensures Position(c, blocks, n) <= n * (MAX_BLOCK_SIZE + 8)
  {
    if n > 0 {
      PositionBound(c, blocks, n - 1);
    }
  }

  function EarlyLast(head: nat): nat {
    if head > Rounds.MAX_WITNESSES then head - Rounds.MAX_WITNESSES else 0
  }

  lemma NthWithin(s: seq<nat>, k: nat, bound: nat)
    requires k < |s| && forall i :: 0 <= i < |s| ==> s[i] <= bound
    ensures NthSmallest(s, k) <= bound
  {
    NthIsQuorum(s, k, bound + 1);
    NoneAbove(s, bound);
  }

  lemma {:induction false} NoneAbove(s: seq<nat>, bound: nat)
    requires forall i :: 0 <= i < |s| ==> s[i] <= bound
    ensures AtLeast(s, bound + 1) == 0
  {
    if s != [] {
      NoneAbove(s[1..], bound);
    }
  }
}
