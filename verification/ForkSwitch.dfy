/** Pushing a block: extending the chain, or switching to a longer fork and back if the fork is bad. Applying
    a block is any deterministic partial function on the chain state; every applied block can be undone. */
module ForkSwitch {
  import opened Common
  import opened ForkDatabase

  /** What the chain does with a block, and the block id the state is at. */
  datatype Rules<!S> = Rules(apply: (S, Block) -> Option<S>, headId: S -> BlockId)

  /** A block applies only on top of its parent, and becomes the head. */
  ghost predicate RulesOk<S(!new)>(r: Rules<S>) {
    forall s, b {:trigger r.apply(s, b)} :: r.apply(s, b).Some? ==>
        r.headId(s) == b.previous && r.headId(r.apply(s, b).value) == b.id
  }

  /** Replaying blocks one after the other. */
  function Run<S>(r: Rules<S>, s: S, blocks: seq<Block>): Option<S> {
    if blocks == [] then Some(s)
    else
      match Run(r, s, blocks[..|blocks| - 1])
      case None => None
      case Some(t) => r.apply(t, blocks[|blocks| - 1])
  }

  /** undo + [state] are the states between the applied blocks. */
  ghost predicate History<S(!new)>(r: Rules<S>, undo: seq<S>, state: S, applied: seq<Block>) {
    && |undo| == |applied|
    && forall i {:trigger applied[i]} :: 0 <= i < |applied| ==>
         r.apply(undo[i], applied[i]) == Some(if i + 1 < |undo| then undo[i + 1] else state)
  }

  /** The state is what replaying any of the last blocks on the undo state before them gives. */
  lemma {:induction false} HistoryReplays<S(!new)>(r: Rules<S>, undo: seq<S>, state: S, applied: seq<Block>, from: nat)
    requires History(r, undo, state, applied) && from <= |applied|
    ensures Run(r, if from < |undo| then undo[from] else state, applied[from..]) == Some(state)
    decreases |applied|
  {
    if from < |applied| {
      var n := |applied| - 1;
      assert r.apply(undo[n], applied[n]) == Some(state);
      forall i | 0 <= i < n
        ensures r.apply(undo[..n][i], applied[..n][i]) == Some(if i + 1 < n then undo[..n][i + 1] else undo[n])
      {
        assert applied[i] == applied[i];
      }
      HistoryReplays(r, undo[..n], undo[n], applied[..n], from);
      assert applied[from..][..|applied[from..]| - 1] == applied[..n][from..];
    } else {
      assert applied[from..] == [];
    }
  }

  function Reversed(blocks: seq<Block>): (r: seq<Block>)
    ensures |r| == |blocks| && forall i :: 0 <= i < |r| ==> r[i] == blocks[|blocks| - 1 - i]
  {
    if blocks == [] then [] else Reversed(blocks[1..]) + [blocks[0]]
  }

  /** Replaying a branch, oldest block first, leads from s to t. */
  ghost predicate Replays<S>(r: Rules<S>, s: S, branch: seq<Block>, t: S) {
    Run(r, s, Reversed(branch)) == Some(t)
  }

  /** The blocks of the branch before block `bad` replay from s, but with it they do not. */
  ghost predicate FailsAt<S>(r: Rules<S>, s: S, branch: seq<Block>, bad: nat) {
    bad < |branch| && Run(r, s, Reversed(branch[bad + 1..])).Some? && Run(r, s, Reversed(branch[bad..])).None?
  }

  /** m ancestors of b are still linked. */
  predicate Deep(index: Index, b: Block, m: nat)
    decreases m
  {
    m == 0 || (b.previous in index && Deep(index, index[b.previous], m - 1))
  }

  lemma {:induction false} LessDeep(index: Index, b: Block, m: nat, n: nat)
    requires Deep(index, b, n) && m <= n
    ensures Deep(index, b, m)
    decreases n
  {
    if m > 0 {
      LessDeep(index, index[b.previous], m - 1, n - 1);
    }
  }

  function Ids(blocks: seq<Block>): set<BlockId> {
    set i | 0 <= i < |blocks| :: blocks[i].id
  }

  /** Ids identify blocks, across the fork database and the chain. */
  ghost predicate Consistent(index: Index, head: Option<Block>, applied: seq<Block>) {
    && (head.Some? && head.value.id in index ==> index[head.value.id] == head.value)
    && forall i {:trigger applied[i]} :: 0 <= i < |applied| && applied[i].id in index ==>
         index[applied[i].id] == applied[i]
  }

  datatype Outcome =
    | Refused        // the fork database does not take the block
    | Unreachable    // the two branches are not linked to a common ancestor
    | Kept           // stored, but not on a longer fork
    | Extended       // applied on top of the head
    | Rejected       // the new head block does not apply
    | Switched       // now on the longer fork
    | Failed         // the longer fork is bad, back on the old one
    | Stuck          // undo history or fork links do not reach far enough

  class Node<S(!new)> {
    const rules: Rules<S>
    const fork: ForkDb
    var state: S
    var undo: seq<S>
    ghost var applied: seq<Block>

    constructor (rules: Rules<S>, fork: ForkDb, state: S)
      requires RulesOk(rules) && fork.Valid() && Consistent(fork.index, fork.head, [])
      ensures Valid() && this.rules == rules && this.fork == fork && this.state == state && undo == [] && applied == []
    {
      this.rules, this.fork, this.state, this.undo, this.applied := rules, fork, state, [], [];
    }

    ghost predicate Valid()
      reads this, fork
    {
      && RulesOk(rules) && fork.Valid() && History(rules, undo, state, applied)
      && Consistent(fork.index, fork.head, applied)
    }

    function HeadId(): BlockId
      reads this
    {
      rules.headId(state)
    }

    /** apply_block in an undo session that is kept. */
    method Apply(b: Block) returns (ok: bool)
      requires RulesOk(rules) && History(rules, undo, state, applied)
      modifies this
      ensures History(rules, undo, state, applied)
      ensures ok <==> rules.apply(old(state), b).Some?
      ensures if ok then
                state == rules.apply(old(state), b).value && undo == old(undo) + [old(state)] &&
                  applied == old(applied) + [b]
              else state == old(state) && undo == old(undo) && applied == old(applied)
    {
      var next := rules.apply(state, b);
      if next.None? {
        return false;
      }
      HistoryGrows(rules, undo, state, applied, b);
      undo, state, applied := undo + [state], next.value, applied + [b];
      ok := true;
    }

    /** pop_block: the fork database's head moves to its parent and the last block is undone. */
    method PopBlock() returns (ok: bool)
      requires Valid() && |undo| > 0
      modifies this, fork`head
      ensures Valid()
      ensures ok <==> old(fork.head).Some? && old(fork.head).value.previous in fork.index
      ensures if ok then && fork.head == Some(fork.index[old(fork.head).value.previous])
                         && undo == old(undo)[..|old(undo)| - 1] && state == old(undo)[|old(undo)| - 1]
                         && applied == old(applied)[..|old(applied)| - 1]
                         && rules.headId(state) == old(applied)[|old(applied)| - 1].previous
              else fork.head == old(fork.head) && undo == old(undo) && state == old(state) && applied == old(applied)
    {
      ok := fork.Pop();
      if ok {
        assert fork.index[fork.head.value.id] == fork.head.value;
        HistoryShrinks(rules, undo, state, applied);
        state, undo, applied := undo[|undo| - 1], undo[..|undo| - 1], applied[..|applied| - 1];
      }
    }

    /** k blocks of the old branch are undone, and the fork database's head has moved down the new branch. */
    ghost predicate Popping(first: seq<Block>, second: seq<Block>, undo0: seq<S>, state0: S, applied0: seq<Block>,
                            k: nat)
      reads this, fork
    {
      && Valid() && Forked(fork.index, first, second) && k <= |second| < |first|
      && HeadId() == HeadAfter(second, k) && fork.head == Some(first[k])
      && Undone(undo0, state0, applied0, undo, state, applied, k) && EndsWith(applied0, second[..k])
    }

    method PopNext(first: seq<Block>, second: seq<Block>, ghost undo0: seq<S>, ghost state0: S,
                   ghost applied0: seq<Block>, ghost k: nat)
      requires k < |second| && Popping(first, second, undo0, state0, applied0, k) && |undo| > 0
      modifies this, fork`head
      ensures Popping(first, second, undo0, state0, applied0, k + 1) && |undo| == |old(undo)| - 1
    {
      HistoryShrinks(rules, undo, state, applied);
      hide History, IsBranch, Consistent, IndexOk, RulesOk, Apart, EndsWith;
      NextOld(fork.index, fork.head, applied0, applied, second, k);
      NextNew(fork.index, first, k);
      var _ := PopBlock();
    }

    /** Undoing the old branch, down to the fork point. The fork database's head moves down the new branch, which
        is the longer one, so its links suffice. */
    method PopOldBranch(first: seq<Block>, second: seq<Block>) returns (ok: bool)
      requires Valid() && Forked(fork.index, first, second) && |first| > |second|
      requires HeadId() == second[0].id && fork.head == Some(first[0])
      modifies this, fork`head
      ensures Valid() && (ok <==> |old(undo)| >= |second|)
      ensures ok ==> Popping(first, second, old(undo), old(state), old(applied), |second|)
    {
      assert |undo| == |applied|;
      hide History, Forked, Consistent, RulesOk, EndsWith;
      EndsWithNone(applied, second);
      ghost var k := 0;
      while HeadId() != Last(second).previous
        invariant Popping(first, second, old(undo), old(state), old(applied), k)
        decreases |undo|
      {
        ForkIsAtTheEnd(fork.index, first, second, k);
        if |undo| == 0 {
          return false;
        }
        PopNext(first, second, old(undo), old(state), old(applied), k);
        k := k + 1;
      }
      ForkIsAtTheEnd(fork.index, first, second, k);
      ok := true;
    }

    /** Applying the new branch, oldest block first; `bad` is the first block that does not apply. */
    method ApplyBranch(branch: seq<Block>) returns (bad: int)
      requires RulesOk(rules) && History(rules, undo, state, applied)
      modifies this
      ensures History(rules, undo, state, applied) && -1 <= bad < |branch|
      ensures applied == old(applied) + Reversed(branch[bad + 1..])
      ensures |undo| == |old(undo)| + |branch| - 1 - bad && undo[..|old(undo)|] == old(undo)
      ensures (if |undo| > |old(undo)| then undo[|old(undo)|] else state) == old(state)
      ensures bad >= 0 ==> rules.apply(state, branch[bad]).None?
      ensures bad == -1 ==> Replays(rules, old(state), branch, state)
    {
      bad := |branch| - 1;
      assert branch[|branch|..] == [];
      while bad >= 0
        invariant -1 <= bad < |branch| && History(rules, undo, state, applied)
        invariant applied == old(applied) + Reversed(branch[bad + 1..])
        invariant |undo| == |old(undo)| + |branch| - 1 - bad && undo[..|old(undo)|] == old(undo)
        invariant (if |undo| > |old(undo)| then undo[|old(undo)|] else state) == old(state)
      {
        var ok := Apply(branch[bad]);
        if !ok {
          return;
        }
        assert branch[bad..][1..] == branch[bad + 1..];
        bad := bad - 1;
      }
      assert branch[0..] == branch;
      HistoryReplays(rules, undo, state, applied, |old(undo)|);
      assert applied[|old(undo)|..] == Reversed(branch);
    }

    /** Undoing the blocks of the new branch that did apply. The fork database's head, on the old branch again,
        moves down with every block, and this fails if its links end too early. */
    method PopNewBranch(branch: seq<Block>, target: BlockId, ghost base: seq<Block>) returns (ok: bool)
      requires Valid() && fork.head.Some? && applied == base + Reversed(branch)
      requires (forall b :: b in branch ==> b.id != target) && rules.headId(StateAt(undo, state, |base|)) == target
      modifies this, fork`head
      ensures Valid()
      ensures if ok then applied == base && Undone(old(undo), old(state), old(applied), undo, state, applied, |branch|)
              else !Deep(fork.index, old(fork.head).value, |branch|)
    {
      ghost var k := 0;
      assert branch[0..] == branch;
      assert |undo| == |applied|;
      hide History, RulesOk, Consistent, IndexOk;
      while HeadId() != target
        invariant Valid() && fork.head.Some? && k <= |branch| && applied == base + Reversed(branch[k..])
        invariant Undone(old(undo), old(state), old(applied), undo, state, applied, k)
        invariant rules.headId(StateAt(undo, state, |base|)) == target
        invariant Deep(fork.index, old(fork.head).value, |branch|) ==> Deep(fork.index, fork.head.value, |branch| - k)
        decreases |undo|
      {
        HeadOnBranch(rules, undo, state, applied, base, branch, k, target);
        assert branch[k..][1..] == branch[k + 1..];
        ok := PopBlock();
        if !ok {
          return;
        }
        k := k + 1;
      }
      HeadOnBranch(rules, undo, state, applied, base, branch, k, target);
      ok := true;
    }

    /** The failing block and everything built on it leave the fork database, oldest first. */
    method RemoveBad(first: seq<Block>, bad: nat)
      requires fork.Valid() && bad < |first|
      modifies fork`index
      ensures fork.Valid() && fork.index == old(fork.index) - Ids(first[..bad + 1])
    {
      var j: int := bad;
      while j >= 0
        invariant -1 <= j <= bad && fork.Valid() && fork.index == old(fork.index) - Ids(first[j + 1..bad + 1])
      {
        assert Ids(first[j..bad + 1]) == Ids(first[j + 1..bad + 1]) + {first[j].id} by { IdsOfMore(first[j..bad + 1]); }
        fork.Remove(first[j].id);
        j := j - 1;
      }
      assert first[0..bad + 1] == first[..bad + 1];
    }

    /** Back to the old branch after block `bad` of the new one did not apply. */
    method SwitchBack(first: seq<Block>, second: seq<Block>, bad: nat, ghost undo0: seq<S>, ghost state0: S,
                      ghost applied0: seq<Block>) returns (r: Outcome)
      requires Valid() && Forked(fork.index, first, second) && bad < |first|
      requires History(rules, undo0, state0, applied0) && EndsWith(applied0, second)
      requires Consistent(fork.index, None, applied0)
      requires var n := |applied0| - |second|;
               && applied == applied0[..n] + Reversed(first[bad + 1..])
               && undo[..n] == undo0[..n] && StateAt(undo, state, n) == undo0[n]
               && rules.headId(undo0[n]) == Last(second).previous
      modifies this, fork`head, fork`index
      ensures Valid() && fork.index == old(fork.index) - Ids(first[..bad + 1])
      ensures r == Failed || r == Stuck
      ensures r == Failed ==> undo == undo0 && state == state0 && applied == applied0
      ensures r == Stuck ==> !Deep(old(fork.index), second[0], |first| - 1 - bad)
    {
      assert |undo| == |applied| && |undo0| == |applied0| >= |second|;
      hide History, RulesOk, IsBranch, Apart, EndsWith, Consistent, IndexOk, Deep;
      ghost var n := |applied0| - |second|;
      ghost var base := applied0[..n];
      AboveTheFork(fork.index, first, second, bad + 1);
      RemovalIsFine(fork.index, fork.head, first, second, bad, applied);
      RemovalIsFine(fork.index, None, first, second, bad, applied0);
      DeepAsBefore(fork.index, first, second, bad);
      RemoveBad(first, bad);
      fork.SetHead(second[0]);
      var ok := PopNewBranch(first[bad + 1..], Last(second).previous, base);
      if !ok {
        return Stuck;
      }
      assert undo == undo0[..n] && state == undo0[n];
      Restore(second, undo0, state0, applied0);
      r := Failed;
    }

    /** The old branch applies again, and gives back the very same states. */
    method Restore(second: seq<Block>, ghost undo0: seq<S>, ghost state0: S, ghost applied0: seq<Block>)
      requires Valid() && History(rules, undo0, state0, applied0) && second != [] && EndsWith(applied0, second)
      requires Consistent(fork.index, Some(second[0]), applied0)
      requires var n := |applied0| - |second|;
               applied == applied0[..n] && undo == undo0[..n] && state == undo0[n]
      modifies this
      ensures Valid() && undo == undo0 && state == state0 && applied == applied0
    {
      assert |undo0| == |applied0| >= |second|;
      hide History, RulesOk, EndsWith, IndexOk;
      var bad := ApplyBranch(second);
      Restored(rules, undo0, state0, applied0, second, undo, state, applied, bad);
    }

    /** The switch to a longer fork: all of it or nothing. On success the state is what replaying the new branch on
        the fork point gives; if a block of it fails, chain and history are exactly as before, and that block and
        everything on top of it are gone from the fork database. */
    method SwitchTo(first: seq<Block>, second: seq<Block>) returns (r: Outcome, ghost bad: int)
      requires Valid() && Forked(fork.index, first, second) && |first| > |second|
      requires HeadId() == second[0].id && fork.head == Some(first[0])
      modifies this, fork`head, fork`index
      ensures Valid()
      ensures r == Switched || r == Failed || r == Stuck
      ensures r == Switched ==>
                && |second| <= |old(undo)| && fork.index == old(fork.index)
                && applied == old(applied)[..|old(applied)| - |second|] + Reversed(first)
                && Replays(rules, old(undo)[|old(undo)| - |second|], first, state)
      ensures r == Failed ==>
                && undo == old(undo) && state == old(state) && applied == old(applied)
                && 0 <= bad < |first| && fork.index == old(fork.index) - Ids(first[..bad + 1])
                && |second| <= |old(undo)|
                && FailsAt(rules, old(undo)[|old(undo)| - |second|], first, bad)
      ensures r == Stuck ==> |old(undo)| < |second| || !Deep(old(fork.index), second[0], |first| - 1)
    {
      bad := -1;
      var popped := PopOldBranch(first, second);
      if !popped {
        return Stuck, bad;
      }
      r, bad := TryNewBranch(first, second, old(undo), old(state), old(applied));
    }

    /** Applying a branch of the fork database. */
    method ApplyKnown(branch: seq<Block>) returns (bad: int)
      requires Valid() && IsBranch(fork.index, branch)
      modifies this
      ensures Valid() && -1 <= bad < |branch|
      ensures applied == old(applied) + Reversed(branch[bad + 1..])
      ensures |undo| >= |old(undo)| == |old(applied)| && undo[..|old(undo)|] == old(undo)
      ensures StateAt(undo, state, |old(undo)|) == old(state)
      ensures if bad == -1 then Replays(rules, old(state), branch, state) else FailsAt(rules, old(state), branch, bad)
    {
      hide History, RulesOk, IsBranch, IndexOk, Consistent, FailsAt;
      bad := ApplyBranch(branch);
      ConsistentBranch(fork.index, fork.head, old(applied), branch, bad + 1);
      if bad >= 0 {
        BranchFails(rules, undo, state, applied, old(applied), branch, bad);
      }
    }

    /** From the fork point: the new branch, or else the old one again. */
    method TryNewBranch(first: seq<Block>, second: seq<Block>, ghost undo0: seq<S>, ghost state0: S,
                        ghost applied0: seq<Block>) returns (r: Outcome, ghost bad: int)
      requires Popping(first, second, undo0, state0, applied0, |second|)
      requires History(rules, undo0, state0, applied0) && Consistent(fork.index, None, applied0)
      modifies this, fork`head, fork`index
      ensures Valid()
      ensures r == Switched || r == Failed || r == Stuck
      ensures r == Switched ==>
                && fork.index == old(fork.index) && applied == old(applied) + Reversed(first)
                && Replays(rules, old(state), first, state)
      ensures r == Failed ==>
                && undo == undo0 && state == state0 && applied == applied0
                && 0 <= bad < |first| && fork.index == old(fork.index) - Ids(first[..bad + 1])
                && FailsAt(rules, old(state), first, bad)
      ensures r == Stuck ==> !Deep(old(fork.index), second[0], |first| - 1)
    {
      hide History, RulesOk, IsBranch, Apart, IndexOk, Replays, FailsAt, Consistent, EndsWith;
      assert second[..|second|] == second;
      var failed := ApplyKnown(first);
      bad := failed;
      if failed == -1 {
        assert first[0..] == first;
        return Switched, bad;
      }
      r := SwitchBack(first, second, failed, undo0, state0, applied0);
      LessDeepUnless(old(fork.index), second[0], |first| - 1 - failed, |first| - 1);
    }

    /** _push_block, with the two branches and the failing block, if any, for reference. */
    method PushBlock(b: Block) returns (r: Outcome, ghost first: seq<Block>, ghost second: seq<Block>, ghost bad: int)
      requires Valid() && Numbered(b) && Identified(fork.index, fork.head, applied, b)
      modifies this, fork`head, fork`index
      ensures Valid()
      ensures r in {Refused, Unreachable, Kept, Rejected, Failed} ==>
                undo == old(undo) && state == old(state) && applied == old(applied)
      ensures r == Refused ==> fork.index == old(fork.index) && fork.head == old(fork.head)
      ensures r in {Unreachable, Kept, Extended, Switched} ==> fork.index == Inserted(old(fork.index), b)
      ensures r == Extended ==> applied == old(applied) + [b] && rules.apply(old(state), b) == Some(state)
      ensures r == Rejected ==> rules.apply(state, b).None? && fork.index == Inserted(old(fork.index), b) - {b.id}
      ensures r in {Switched, Failed, Stuck} ==>
                && Forked(Inserted(old(fork.index), b), first, second)
                && |first| > |second| && second[0].id == old(HeadId())
      ensures r == Switched ==>
                && |second| <= |old(undo)|
                && applied == old(applied)[..|old(applied)| - |second|] + Reversed(first)
                && Replays(rules, old(undo)[|old(undo)| - |second|], first, state)
      ensures r == Failed ==>
                && |second| <= |old(undo)| && 0 <= bad < |first|
                && fork.index == Inserted(old(fork.index), b) - Ids(first[..bad + 1])
                && FailsAt(rules, old(undo)[|old(undo)| - |second|], first, bad)
      ensures r == Stuck ==> |old(undo)| < |second| || !Deep(Inserted(old(fork.index), b), second[0], |first| - 1)
    {
      hide History, RulesOk, Forked, IndexOk, Consistent, Replays, FailsAt, Deep;
      first, second, bad := [], [], -1;
      PushIsFine(fork.index, fork.head, applied, b);
      var pushed := fork.Push(b);
      if !pushed {
        return Refused, first, second, bad;
      }
      var newHead := fork.head.value;
      if newHead.previous != HeadId() {
        if newHead.id.num <= HeadId().num {
          return Kept, first, second, bad;
        }
        r, first, second, bad := SwitchForks(newHead);
        return;
      }
      var ok := Apply(b);
      if !ok {
        RemovalKeeps(fork.index, fork.head, applied, b.id);
        fork.Remove(b.id);
        return Rejected, first, second, bad;
      }
      r := Extended;
    }

    /** The fork database's head is above the chain's. */
    method SwitchForks(newHead: Block)
      returns (r: Outcome, ghost first: seq<Block>, ghost second: seq<Block>, ghost bad: int)
      requires Valid() && fork.head == Some(newHead) && newHead.id.num > HeadId().num
      modifies this, fork`head, fork`index
      ensures Valid()
      ensures r == Unreachable || (
                && r in {Switched, Failed, Stuck} && Forked(old(fork.index), first, second)
                && |first| > |second| && second[0].id == old(HeadId()))
      ensures r in {Unreachable, Failed} ==> undo == old(undo) && state == old(state) && applied == old(applied)
      ensures r in {Unreachable, Switched} ==> fork.index == old(fork.index)
      ensures r == Switched ==>
                && |second| <= |old(undo)|
                && applied == old(applied)[..|old(applied)| - |second|] + Reversed(first)
                && Replays(rules, old(undo)[|old(undo)| - |second|], first, state)
      ensures r == Failed ==>
                && |second| <= |old(undo)| && 0 <= bad < |first|
                && fork.index == old(fork.index) - Ids(first[..bad + 1])
                && FailsAt(rules, old(undo)[|old(undo)| - |second|], first, bad)
      ensures r == Stuck ==> |old(undo)| < |second| || !Deep(old(fork.index), second[0], |first| - 1)
    {
      hide History, RulesOk, Apart, IsBranch, Replays, FailsAt, Deep;
      first, second, bad := [], [], -1;
      var branches := fork.FetchBranchFrom(newHead.id, HeadId());
      if branches.None? {
        return Unreachable, first, second, bad;
      }
      first, second := branches.value.0, branches.value.1;
      LongerBranch(fork.index, branches.value.0, branches.value.1);
      r, bad := SwitchTo(branches.value.0, branches.value.1);
    }
  }

  lemma RemovalKeeps(index: Index, head: Option<Block>, applied: seq<Block>, id: BlockId)
    requires Consistent(index, head, applied)
    ensures Consistent(index - {id}, head, applied)
  {
  }

  lemma PushIsFine(index: Index, head: Option<Block>, applied: seq<Block>, b: Block)
    requires Consistent(index, head, applied) && Identified(index, head, applied, b)
    ensures Consistent(Inserted(index, b), head, applied)
    ensures Consistent(Inserted(index, b), head, applied + [b]) && Consistent(Inserted(index, b), Some(b), applied)
    ensures Consistent(Inserted(index, b), Some(b), applied + [b])
  {
    forall i | 0 <= i < |applied| && applied[i].id in Inserted(index, b)
      ensures Inserted(index, b)[applied[i].id] == applied[i]
    {
      assert (applied + [b])[i] == applied[i];
    }
  }

  /** No other block has the id of b. */
  ghost predicate Identified(index: Index, head: Option<Block>, applied: seq<Block>, b: Block) {
    && (b.id in index ==> index[b.id] == b)
    && (head.Some? && head.value.id == b.id ==> head.value == b)
    && forall i {:trigger applied[i]} :: 0 <= i < |applied| && applied[i].id == b.id ==> applied[i] == b
  }

  /** The branch of the higher block is the longer one. */
  lemma LongerBranch(index: Index, first: seq<Block>, second: seq<Block>)
    requires IndexOk(index) && Forked(index, first, second)
    ensures first[0].id.num > second[0].id.num ==> |first| > |second|
    ensures index[first[0].id] == first[0] && index[second[0].id] == second[0]
  {
    BranchNumbers(index, first, |first| - 1);
    BranchNumbers(index, second, |second| - 1);
  }

  lemma LessDeepUnless(index: Index, b: Block, m: nat, n: nat)
    requires m <= n
    ensures Deep(index, b, n) ==> Deep(index, b, m)
  {
    if Deep(index, b, n) {
      LessDeep(index, b, m, n);
    }
  }

  lemma ConsistentBranch(index: Index, head: Option<Block>, base: seq<Block>, branch: seq<Block>, from: nat)
    requires Consistent(index, head, base) && IsBranch(index, branch) && from <= |branch|
    ensures Consistent(index, head, base + Reversed(branch[from..])) && Consistent(index, None, base)
  {
    var all := base + Reversed(branch[from..]);
    forall i | 0 <= i < |all| && all[i].id in index ensures index[all[i].id] == all[i] {
      if i < |base| {
        assert base[i] == all[i];
      } else {
        assert all[i] == branch[|branch| - 1 - (i - |base|)];
      }
    }
  }

  /** The blocks before the bad one replay, and with it they do not. */
  lemma BranchFails<S(!new)>(r: Rules<S>, undo: seq<S>, state: S, applied: seq<Block>, base: seq<Block>,
                             branch: seq<Block>, bad: nat)
    requires History(r, undo, state, applied) && bad < |branch| && applied == base + Reversed(branch[bad + 1..])
    requires r.apply(state, branch[bad]).None?
    ensures FailsAt(r, StateAt(undo, state, |base|), branch, bad)
  {
    HistoryReplays(r, undo, state, applied, |base|);
    assert applied[|base|..] == Reversed(branch[bad + 1..]);
    var longer := Reversed(branch[bad..]);
    assert longer[..|longer| - 1] == Reversed(branch[bad + 1..]);
  }

  /** The target is reached only when no block of the branch is left. */
  lemma HeadOnBranch<S(!new)>(r: Rules<S>, undo: seq<S>, state: S, applied: seq<Block>, base: seq<Block>,
                              branch: seq<Block>, k: nat, target: BlockId)
    requires RulesOk(r) && History(r, undo, state, applied) && k <= |branch| && applied == base + Reversed(branch[k..])
    requires (forall b :: b in branch ==> b.id != target) && r.headId(StateAt(undo, state, |base|)) == target
    ensures r.headId(state) == target <==> k == |branch|
    ensures k == |branch| ==> applied == base
  {
    if k < |branch| {
      HistoryShrinks(r, undo, state, applied);
      assert applied[|applied| - 1] == branch[k..][0] == branch[k];
    }
  }

  function StateAt<S>(undo: seq<S>, state: S, i: nat): S {
    if i < |undo| then undo[i] else state
  }

  lemma HistoryPrefix<S(!new)>(r: Rules<S>, undo: seq<S>, state: S, applied: seq<Block>, m: nat)
    requires History(r, undo, state, applied) && m <= |applied|
    ensures History(r, undo[..m], StateAt(undo, state, m), applied[..m])
    ensures m < |applied| ==> r.apply(StateAt(undo, state, m), applied[m]).Some?
  {
    forall i | 0 <= i < m
      ensures r.apply(undo[..m][i], applied[..m][i]) ==
                Some(if i + 1 < m then undo[..m][i + 1] else StateAt(undo, state, m))
    {
      assert applied[i] == applied[i];
    }
    if m < |applied| {
      assert applied[m] == applied[m];
    }
  }

  /** Determinism: applying the old branch again cannot fail and leads to the same history. */
  lemma Restored<S(!new)>(r: Rules<S>, undo0: seq<S>, state0: S, applied0: seq<Block>, second: seq<Block>, undo: seq<S>,
                          state: S, applied: seq<Block>, bad: int)
    requires History(r, undo0, state0, applied0) && History(r, undo, state, applied)
    requires second != [] && EndsWith(applied0, second) && -1 <= bad < |second|
    requires var n := |applied0| - |second|;
             && applied == applied0[..n] + Reversed(second[bad + 1..]) && |undo| >= n
             && undo[..n] == undo0[..n] && StateAt(undo, state, n) == undo0[n]
    requires bad >= 0 ==> r.apply(state, second[bad]).None?
    ensures undo == undo0 && state == state0 && applied == applied0
  {
    var n, m := |applied0| - |second|, |applied|;
    OldBlocks(applied0, second, bad);
    HistoryPrefix(r, undo0, state0, applied0, m);
    assert StateAt(undo, state, 0) == undo0[0] by {
      if n > 0 {
        assert undo[..n][0] == undo0[..n][0];
      }
    }
    HistoryUnique(r, undo, state, undo0[..m], StateAt(undo0, state0, m), applied);
  }

  lemma OldBlocks(applied0: seq<Block>, second: seq<Block>, bad: int)
    requires second != [] && EndsWith(applied0, second) && -1 <= bad < |second|
    ensures var n := |applied0| - |second|;
            && applied0[..n] + Reversed(second[bad + 1..]) == applied0[..n + |second| - 1 - bad]
            && (bad >= 0 ==> applied0[n + |second| - 1 - bad] == second[bad])
  {
    var n := |applied0| - |second|;
    assert forall i :: n <= i < |applied0| ==> applied0[i] == applied0[n..][i - n];
  }

  lemma IdsOfMore(blocks: seq<Block>)
    requires blocks != []
    ensures Ids(blocks) == Ids(blocks[1..]) + {blocks[0].id}
  {
    forall i | 0 <= i < |blocks| ensures blocks[i].id in Ids(blocks[1..]) + {blocks[0].id} {
      if i > 0 {
        assert blocks[1..][i - 1] == blocks[i];
      }
    }
  }

  /** No block of the new branch is the fork point. */
  lemma AboveTheFork(index: Index, first: seq<Block>, second: seq<Block>, from: nat)
    requires IndexOk(index) && Forked(index, first, second) && from <= |first|
    ensures forall b :: b in first[from..] ==> b.id != Last(second).previous
  {
    BranchNumbers(index, first, |first| - 1);
    forall i | from <= i < |first| ensures first[i].id != Last(second).previous {
      BranchNumbers(index, first, i);
    }
  }

  /** The removed blocks are above all ancestors of the old head that going back may need. */
  lemma DeepAsBefore(index: Index, first: seq<Block>, second: seq<Block>, bad: nat)
    requires IndexOk(index) && Forked(index, first, second) && bad < |first|
    ensures Deep(index, second[0], |first| - 1 - bad) ==>
              Deep(index - Ids(first[..bad + 1]), second[0], |first| - 1 - bad)
  {
    if Deep(index, second[0], |first| - 1 - bad) {
      DeepKept(index, first, second, bad, second[0], 0, |first| - 1 - bad);
    }
  }

  /** b is j steps below the old head, on the old branch or under the fork point. */
  lemma {:induction false} DeepKept(index: Index, first: seq<Block>, second: seq<Block>, bad: nat, b: Block, j: nat,
                                    m: nat)
    requires IndexOk(index) && Forked(index, first, second) && bad < |first| && m + j <= |first| - 1 - bad
    requires KnownBlock(index, b) && Deep(index, b, m)
    requires if j < |second| then b == second[j] else b.id.num < Last(second).id.num
    ensures Deep(index - Ids(first[..bad + 1]), b, m)
    decreases m
  {
    if m > 0 {
      var parent := index[b.previous];
      assert parent.id == b.previous;
      NotRemoved(index, first, second, bad, b, j);
      DeepKept(index, first, second, bad, parent, j + 1, m - 1);
    }
  }

  lemma NotRemoved(index: Index, first: seq<Block>, second: seq<Block>, bad: nat, b: Block, j: nat)
    requires IndexOk(index) && Forked(index, first, second) && bad < |first| && j < |first| - 1 - bad
    requires KnownBlock(index, b) && b.previous in index
    requires if j < |second| then b == second[j] else b.id.num < Last(second).id.num
    ensures b.previous !in Ids(first[..bad + 1])
    ensures if j + 1 < |second| then index[b.previous] == second[j + 1] else b.previous.num < Last(second).id.num
  {
    hide Apart;
    BranchNumbers(index, first, |first| - 1);
    BranchNumbers(index, second, |second| - 1);
    if j + 1 < |second| {
      assert second[j].previous == second[j + 1].id;
      BranchNumbers(index, second, j + 1);
    }
    forall i | 0 <= i <= bad ensures first[i].id != b.previous {
      BranchNumbers(index, first, i);
      if j + 1 < |second| - 1 && first[i].id == second[j + 1].id {
        SameHeightDiffers(index, first, second, i, j + 1);
        assert false;
      }
    }
  }

  /** Above the ends of the branches, blocks of the same height have different parents. */
  lemma SameHeightDiffers(index: Index, first: seq<Block>, second: seq<Block>, i: nat, j: nat)
    requires Forked(index, first, second) && i < |first| - 1 && j < |second| - 1 && |first| - i == |second| - j
    ensures first[i].previous != second[j].previous && first[i].id != second[j].id
  {
    var a, b, e := first[..|first| - 1], second[..|second| - 1], |first| - 2 - i;
    assert FromEnd(a, e) == first[i] && FromEnd(b, e) == second[j];
  }

  lemma RemovalIsFine(index: Index, head: Option<Block>, first: seq<Block>, second: seq<Block>, bad: nat,
                      applied: seq<Block>)
    requires IndexOk(index) && Forked(index, first, second) && bad < |first| && Consistent(index, head, applied)
    ensures Consistent(index - Ids(first[..bad + 1]), Some(second[0]), applied) && Numbered(second[0])
  {
    assert index[second[0].id] == second[0];
  }

  /** The same blocks applied to the same state give the same history. */
  lemma {:induction false} HistoryUnique<S(!new)>(r: Rules<S>, undo: seq<S>, state: S, undo': seq<S>, state': S,
                                                  applied: seq<Block>)
    requires History(r, undo, state, applied) && History(r, undo', state', applied)
    requires StateAt(undo, state, 0) == StateAt(undo', state', 0)
    ensures undo == undo' && state == state'
  {
    SameStates(r, undo, state, undo', state', applied, |applied|);
    forall i | 0 <= i < |undo| ensures undo[i] == undo'[i] {
      SameStates(r, undo, state, undo', state', applied, i);
    }
  }

  lemma {:induction false} SameStates<S(!new)>(r: Rules<S>, undo: seq<S>, state: S, undo': seq<S>, state': S,
                                               applied: seq<Block>, i: nat)
    requires History(r, undo, state, applied) && History(r, undo', state', applied) && i <= |applied|
    requires StateAt(undo, state, 0) == StateAt(undo', state', 0)
    ensures StateAt(undo, state, i) == StateAt(undo', state', i)
  {
    if i > 0 {
      SameStates(r, undo, state, undo', state', applied, i - 1);
      assert applied[i - 1] == applied[i - 1];
    }
  }

  /** k blocks of a history undone. */
  ghost predicate Undone<S(!new)>(undo0: seq<S>, state0: S, applied0: seq<Block>, undo: seq<S>, state: S,
                                  applied: seq<Block>, k: nat) {
    && k <= |undo0| == |applied0| && undo == undo0[..|undo0| - k] && applied == applied0[..|applied0| - k]
    && state == if k == 0 then state0 else undo0[|undo0| - k]
  }

  /** The last blocks of the chain are the branch, newest first. */
  ghost predicate EndsWith(applied: seq<Block>, branch: seq<Block>) {
    |branch| <= |applied| && applied[|applied| - |branch|..] == Reversed(branch)
  }

  lemma EndsWithNone(applied: seq<Block>, branch: seq<Block>)
    ensures EndsWith(applied, branch[..0])
  {
  }

  /** The next block to undo is the next of the old branch. */
  lemma NextOld(index: Index, head: Option<Block>, applied0: seq<Block>, applied: seq<Block>, second: seq<Block>,
                k: nat)
    requires Consistent(index, head, applied) && IsBranch(index, second) && k < |second|
    requires k < |applied0| && applied == applied0[..|applied0| - k] && EndsWith(applied0, second[..k])
    requires applied[|applied| - 1].id == second[k].id
    ensures applied[|applied| - 1] == second[k] && second[k].previous == HeadAfter(second, k + 1)
    ensures EndsWith(applied0, second[..k + 1])
  {
    assert index[second[k].id] == second[k];
    assert k + 1 < |second| ==> second[k].previous == second[k + 1].id;
    var r, r' := Reversed(second[..k]), Reversed(second[..k + 1]);
    assert applied0[|applied0| - (k + 1)..] == [second[k]] + applied0[|applied0| - k..];
    assert r' == [second[k]] + r;
  }

  lemma NextNew(index: Index, first: seq<Block>, k: nat)
    requires IsBranch(index, first) && k + 1 < |first|
    ensures first[k].previous in index && index[first[k].previous] == first[k + 1]
  {
    assert first[k].previous == first[k + 1].id && index[first[k + 1].id] == first[k + 1];
  }

  lemma ForkIsAtTheEnd(index: Index, first: seq<Block>, second: seq<Block>, k: nat)
    requires IndexOk(index) && Forked(index, first, second) && k <= |second|
    ensures HeadAfter(second, k) == Last(second).previous <==> k == |second|
  {
    BranchNumbers(index, second, |second| - 1);
    if k < |second| {
      BranchNumbers(index, second, k);
    }
  }

  /** The head after undoing k blocks of the branch that starts at the head. */
  function HeadAfter(branch: seq<Block>, k: nat): BlockId
    requires branch != [] && k <= |branch|
  {
    if k < |branch| then branch[k].id else Last(branch).previous
  }

  lemma HistoryGrows<S(!new)>(r: Rules<S>, undo: seq<S>, state: S, applied: seq<Block>, b: Block)
    requires History(r, undo, state, applied) && r.apply(state, b).Some?
    ensures History(r, undo + [state], r.apply(state, b).value, applied + [b])
  {
    forall i | 0 <= i < |applied| + 1
      ensures r.apply((undo + [state])[i], (applied + [b])[i]) ==
              Some(if i + 1 < |undo| + 1 then (undo + [state])[i + 1] else r.apply(state, b).value)
    {
      if i < |applied| {
        assert applied[i] == applied[i];
      }
    }
  }

  lemma HistoryShrinks<S(!new)>(r: Rules<S>, undo: seq<S>, state: S, applied: seq<Block>)
    requires RulesOk(r) && History(r, undo, state, applied) && |undo| > 0
    ensures var n := |undo| - 1;
            && History(r, undo[..n], undo[n], applied[..n]) && r.apply(undo[n], applied[n]) == Some(state)
            && r.headId(undo[n]) == applied[n].previous && r.headId(state) == applied[n].id
  {
    var n := |undo| - 1;
    assert applied[n] == applied[n];
    forall i | 0 <= i < n
      ensures r.apply(undo[..n][i], applied[..n][i]) == Some(if i + 1 < n then undo[..n][i + 1] else undo[n])
    {
      assert applied[i] == applied[i];
    }
  }
}
