/** Posts and replies as a forest, with the cached sums that payouts are computed from. */
module CommentForest {
  import opened Common
  import opened MapSums
  import opened TreeSums

  /** STEEMIT_MAX_COMMENT_DEPTH, and the softer limit used while producing a block */
  const MAX_DEPTH: nat := 0xfff0
  const SOFT_MAX_DEPTH: nat := 0xff

  datatype Comment = Comment(
    parent: Option<Id>,
    depth: nat,
    net: int,                // net_rshares
    shares: nat,             // children_rshares2
    children: nat,
    cashout: Option<int>)    // cashout_time, None for never

  type Comments = map<Id, Comment>

  /** calculate_vshares of the positive part of net_rshares; linear in the modelled regime. */
  function Value(net: int): nat {
    if net > 0 then net else 0
  }

  /** A reply is one level below its parent. */
  ghost predicate Shaped(cs: Comments) {
    forall c {:trigger cs[c].parent} :: c in cs ==>
      match cs[c].parent
      case None => cs[c].depth == 0
      case Some(p) => p in cs && cs[c].depth == cs[p].depth + 1
  }

  ghost function ParentsOf(cs: Comments): Parents {
    map c | c in cs :: cs[c].parent
  }

  ghost function Values(cs: Comments): map<Id, int> {
    map c | c in cs :: Value(cs[c].net) as int
  }

  ghost function SharesOf(cs: Comments): map<Id, int> {
    map c | c in cs :: cs[c].shares as int
  }

  ghost function Ones(cs: Comments): map<Id, int> {
    map c | c in cs :: 1
  }

  ghost function Sizes(cs: Comments): map<Id, int> {
    map c | c in cs :: cs[c].children + 1
  }

  /** children_rshares2 and total_reward_shares2 agree with the values `own`, but for `owed` at `at`. */
  ghost predicate SharesAgree(cs: Comments, own: map<Id, int>, total: int, at: Option<Id>, owed: int) {
    NodesAgree(ParentsOf(cs), own, SharesOf(cs), at, owed) && TopAgrees(ParentsOf(cs), SharesOf(cs), total, at, owed)
  }

  /** `children` counts the replies at every depth, but for `owed` at `at`. */
  ghost predicate CountsAgree(cs: Comments, at: Option<Id>, owed: int) {
    NodesAgree(ParentsOf(cs), Ones(cs), Sizes(cs), at, owed)
  }

  ghost predicate ForestOk(cs: Comments, total: int) {
    Shaped(cs) && SharesAgree(cs, Values(cs), total, None, 0) && CountsAgree(cs, None, 0)
  }

  lemma NoComments(none: Comments, total: int)
    requires none == map[] && total == 0
    ensures ForestOk(none, total)
  {
    hide Sum;
    var parents, shares := ParentsOf(none), SharesOf(none);
    assert Group(shares, parents, None) == map[];
    NothingSums(Group(shares, parents, None));
  }

  lemma NothingSums(m: map<Id, int>)
    requires m == map[]
    ensures Sum(m) == 0
  {
  }

  // ----- what it means -----

  /** d is c or a reply below c. */
  ghost predicate Within(cs: Comments, d: Id, c: Id)
    requires Shaped(cs) && d in cs
    decreases cs[d].depth
  {
    d == c || (cs[d].parent.Some? && Within(cs, cs[d].parent.value, c))
  }

  ghost function Subtree(cs: Comments, c: Id): set<Id>
    requires Shaped(cs)
  {
    set d | d in cs && Within(cs, d, c)
  }

  lemma {:induction false} WithinIsDeeper(cs: Comments, d: Id, c: Id)
    requires Shaped(cs) && d in cs && c in cs && Within(cs, d, c)
    ensures cs[d].depth >= cs[c].depth
    decreases cs[d].depth
  {
    if d != c {
      WithinIsDeeper(cs, cs[d].parent.value, c);
    }
  }

  lemma SubtreeIsSubtree(cs: Comments, c: Id)
    requires Shaped(cs) && c in cs
    ensures IsSubtree(ParentsOf(cs), Subtree(cs, c), c)
  {
    var s, parents := Subtree(cs, c), ParentsOf(cs);
    forall d | d in parents ensures d in s && d != c <==> parents[d].Some? && parents[d].value in s {
      assert parents[d] == cs[d].parent;
      if d == c && cs[c].parent.Some? && Within(cs, cs[c].parent.value, c) {
        WithinIsDeeper(cs, cs[c].parent.value, c);
      }
    }
  }

  /** Every cache is the sum over the whole subtree, and the total is the sum over all comments. */
  lemma SharesAreSubtreeSums(cs: Comments, total: int, c: Id)
    requires ForestOk(cs, total) && c in cs
    ensures cs[c].shares == Sum(Part(Values(cs), Subtree(cs, c)))
    ensures total == Sum(Values(cs))
  {
    hide NodesAgree, Within;
    SubtreeIsSubtree(cs, c);
    CacheIsSubtreeSum(ParentsOf(cs), Values(cs), SharesOf(cs), Subtree(cs, c), c);
    assert SharesOf(cs)[c] == cs[c].shares;
    TotalIsSum(cs, total);
  }

  lemma TotalIsSum(cs: Comments, total: int)
    requires ForestOk(cs, total)
    ensures total == Sum(Values(cs))
  {
    hide NodesAgree;
    forall d | d in ParentsOf(cs) && ParentsOf(cs)[d].Some? ensures ParentsOf(cs)[d].value in ParentsOf(cs) {
      assert ParentsOf(cs)[d] == cs[d].parent;
    }
    TopIsTotal(ParentsOf(cs), Values(cs), SharesOf(cs), total);
  }

  /** `children` is the number of comments below. */
  lemma ChildrenAreSubtreeSize(cs: Comments, total: int, c: Id)
    requires ForestOk(cs, total) && c in cs
    ensures cs[c].children + 1 == |Subtree(cs, c)|
  {
    hide NodesAgree, Within;
    SubtreeIsSubtree(cs, c);
    CacheIsSubtreeSum(ParentsOf(cs), Ones(cs), Sizes(cs), Subtree(cs, c), c);
    assert Sizes(cs)[c] == cs[c].children + 1;
    SumOfOnes(Part(Ones(cs), Subtree(cs, c)));
    assert Part(Ones(cs), Subtree(cs, c)).Keys == Subtree(cs, c);
  }

  lemma {:induction false} SumOfOnes(m: map<Id, int>)
    requires forall c :: c in m ==> m[c] == 1
    ensures Sum(m) == |m.Keys|
    decreases |m|
  {
    if m != map[] {
      var c :| c in m;
      SumRemove(m, c);
      SumOfOnes(m - {c});
      assert (m - {c}).Keys == m.Keys - {c};
    }
  }

  /** A post with a value has a share of a positive total: its claim never divides by zero and never
      exceeds the reward fund. */
  lemma ValueWithinTotal(cs: Comments, total: int, c: Id)
    requires ForestOk(cs, total) && c in cs
    ensures Value(cs[c].net) <= total
  {
    TotalIsSum(cs, total);
    assert Values(cs)[c] == Value(cs[c].net);
    SumAtLeast(Values(cs), c);
  }

  // ----- changing one comment -----

  predicate SameShape(a: Comment, b: Comment) {
    a.parent == b.parent && a.depth == b.depth
  }

  lemma ReplacedKeepsShape(cs: Comments, c: Id, x: Comment)
    requires Shaped(cs) && c in cs && SameShape(cs[c], x)
    ensures Shaped(cs[c := x]) && ParentsOf(cs[c := x]) == ParentsOf(cs)
  {
    var cs' := cs[c := x];
    forall d | d in cs'
      ensures match cs'[d].parent
              case None => cs'[d].depth == 0
              case Some(p) => p in cs' && cs'[d].depth == cs'[p].depth + 1
    {
      assert cs[d].parent == cs'[d].parent;
    }
    assert ParentsOf(cs') == ParentsOf(cs);
  }

  function WithShares(cs: Comments, c: Id, shares: nat): Comments
    requires c in cs
  {
    cs[c := cs[c].(shares := shares)]
  }

  function WithChildren(cs: Comments, c: Id, children: nat): Comments
    requires c in cs
  {
    cs[c := cs[c].(children := children)]
  }

  function WithNet(cs: Comments, c: Id, net: int): Comments
    requires c in cs
  {
    cs[c := cs[c].(net := net)]
  }

  lemma ValuesReplaced(cs: Comments, c: Id, x: Comment)
    requires c in cs
    ensures Values(cs[c := x]) == if x.net == cs[c].net then Values(cs) else Values(cs)[c := Value(x.net)]
  {
  }

  lemma SharesReplaced(cs: Comments, c: Id, x: Comment)
    requires c in cs
    ensures SharesOf(cs[c := x]) == if x.shares == cs[c].shares then SharesOf(cs) else SharesOf(cs)[c := x.shares]
  {
  }

  lemma SizesReplaced(cs: Comments, c: Id, x: Comment)
    requires c in cs
    ensures Sizes(cs[c := x]) == if x.children == cs[c].children then Sizes(cs) else Sizes(cs)[c := x.children + 1]
    ensures Ones(cs[c := x]) == Ones(cs)
  {
  }

  lemma Unchanged(m: map<Id, int>, c: Id)
    requires c in m
    ensures m[c := m[c]] == m
  {
  }

  /** Replacing a comment by one with the same parent changes each table in at most one place. */
  lemma Replaced(cs: Comments, c: Id, x: Comment)
    requires Shaped(cs) && c in cs && SameShape(cs[c], x)
    ensures var cs' := cs[c := x];
            && Shaped(cs') && ParentsOf(cs') == ParentsOf(cs) && Ones(cs') == Ones(cs)
            && c in Values(cs) && Values(cs') == Values(cs)[c := Value(x.net)]
            && c in SharesOf(cs) && SharesOf(cs') == SharesOf(cs)[c := x.shares]
            && c in Sizes(cs) && Sizes(cs') == Sizes(cs)[c := x.children + 1]
            && (x.net == cs[c].net ==> Values(cs') == Values(cs))
            && (x.shares == cs[c].shares ==> SharesOf(cs') == SharesOf(cs))
            && (x.children == cs[c].children ==> Sizes(cs') == Sizes(cs))
  {
    InTables(cs, c);
    ReplacedKeepsShape(cs, c, x);
    ValuesReplaced(cs, c, x);
    SharesReplaced(cs, c, x);
    SizesReplaced(cs, c, x);
    hide ParentsOf, Values, SharesOf, Sizes, Ones, Shaped;
    Unchanged(Values(cs), c);
    Unchanged(SharesOf(cs), c);
    Unchanged(Sizes(cs), c);
  }

  lemma InTables(cs: Comments, c: Id)
    requires c in cs
    ensures c in ParentsOf(cs) && c in Values(cs) && c in SharesOf(cs) && c in Sizes(cs) && c in Ones(cs)
    ensures ParentsOf(cs)[c] == cs[c].parent && Values(cs)[c] == Value(cs[c].net)
    ensures SharesOf(cs)[c] == cs[c].shares && Sizes(cs)[c] == cs[c].children + 1 && Ones(cs)[c] == 1
  {
  }

  lemma TablesNonNegative(cs: Comments)
    ensures forall d :: d in SharesOf(cs) ==> SharesOf(cs)[d] >= 0
    ensures forall d :: d in Sizes(cs) ==> Sizes(cs)[d] >= 0
  {
  }

  lemma NoSelfParent(cs: Comments, c: Id)
    requires Shaped(cs) && c in cs
    ensures ParentsOf(cs)[c] == cs[c].parent != Some(c)
  {
  }

  /** adjust_rshares2 at one comment: the debt moves to the parent. */
  lemma SharesMoveUp(cs: Comments, own: map<Id, int>, total: int, c: Id, was: nat, is_: nat)
    requires Shaped(cs) && c in cs && SharesAgree(cs, own, total, Some(c), is_ - was) && was <= cs[c].shares
    ensures var cs' := WithShares(cs, c, cs[c].shares - was + is_);
            Shaped(cs') && SharesAgree(cs', own, total, cs[c].parent, is_ - was)
  {
    hide NodesAgree, TopAgrees, ParentsOf, Values, SharesOf, Sizes, Ones, Shaped;
    InTables(cs, c);
    NoSelfParent(cs, c);
    Replaced(cs, c, cs[c].(shares := cs[c].shares - was + is_));
    DebtMovesUp(ParentsOf(cs), own, SharesOf(cs), c, is_ - was);
  }

  /** The next 128-bit subtraction cannot underflow either: a parent, or the total, holds at least what
      the comment just updated held before. */
  lemma ParentCovers(cs: Comments, own: map<Id, int>, total: int, c: Id, was: nat, is_: nat)
    requires Shaped(cs) && c in cs && SharesAgree(cs, own, total, cs[c].parent, is_ - was) && is_ <= cs[c].shares
    requires forall d :: d in own ==> own[d] >= 0
    ensures match cs[c].parent case None => was <= total case Some(p) => p in cs && was <= cs[p].shares
  {
    var parents, cache, g := ParentsOf(cs), SharesOf(cs), cs[c].parent;
    InTables(cs, c);
    TablesNonNegative(cs);
    HeldCovers(cache, parents, c);
    if g.Some? {
      InTables(cs, g.value);
      AtNode(parents, own, cache, g, is_ - was, g.value);
    }
  }

  /** One reply more or less at a comment: the debt moves to the parent. */
  lemma CountMovesUp(cs: Comments, c: Id, by_: int)
    requires Shaped(cs) && c in cs && CountsAgree(cs, Some(c), by_)
    ensures cs[c].children + by_ >= 0
    ensures var cs' := WithChildren(cs, c, cs[c].children + by_);
            Shaped(cs') && CountsAgree(cs', cs[c].parent, by_)
  {
    hide NodesAgree, TopAgrees, ParentsOf, Values, SharesOf, Sizes, Ones, Shaped;
    InTables(cs, c);
    NoSelfParent(cs, c);
    CountCovers(cs, c, by_);
    Replaced(cs, c, cs[c].(children := cs[c].children + by_));
    DebtMovesUp(ParentsOf(cs), Ones(cs), Sizes(cs), c, by_);
  }

  lemma CountCovers(cs: Comments, c: Id, by_: int)
    requires c in cs && CountsAgree(cs, Some(c), by_)
    ensures cs[c].children + by_ >= 0
  {
    InTables(cs, c);
    TablesNonNegative(cs);
    hide NodesAgree, ParentsOf, Sizes, Ones, Held;
    HeldNonNegative(Sizes(cs), ParentsOf(cs), Some(c));
    AtNode(ParentsOf(cs), Ones(cs), Sizes(cs), Some(c), by_, c);
  }

  // ----- new and removed comments -----

  function Leaf(parent: Option<Id>, depth: nat, cashout: int): Comment {
    Comment(parent, depth, 0, 0, 0, Some(cashout))
  }

  lemma LeafJoins(cs: Comments, total: int, c: Id, parent: Option<Id>, depth: nat, cashout: int)
    requires ForestOk(cs, total) && c !in cs
    requires match parent case None => depth == 0 case Some(p) => p in cs && depth == cs[p].depth + 1
    ensures var cs' := cs[c := Leaf(parent, depth, cashout)];
            && Shaped(cs') && SharesAgree(cs', Values(cs'), total, None, 0) && CountsAgree(cs', parent, 1)
  {
    hide NodesAgree;
    var cs' := cs[c := Leaf(parent, depth, cashout)];
    LeafShape(cs, c, parent, depth, cashout);
    LeafMaps(cs, c, parent, depth, cashout);
    LeafAdded(ParentsOf(cs), Values(cs), SharesOf(cs), c, 0, parent);
    LeafAdded(ParentsOf(cs), Ones(cs), Sizes(cs), c, 1, parent);
    NothingOwed(ParentsOf(cs'), Values(cs'), SharesOf(cs'), parent);
  }

  lemma LeafMaps(cs: Comments, c: Id, parent: Option<Id>, depth: nat, cashout: int)
    requires c !in cs
    ensures var cs' := cs[c := Leaf(parent, depth, cashout)];
            && ParentsOf(cs') == ParentsOf(cs)[c := parent] && Values(cs') == Values(cs)[c := 0]
            && SharesOf(cs') == SharesOf(cs)[c := 0] && Ones(cs') == Ones(cs)[c := 1] && Sizes(cs') == Sizes(cs)[c := 1]
  {
    LeafParents(cs, c, Leaf(parent, depth, cashout));
    LeafValues(cs, c, Leaf(parent, depth, cashout));
    LeafSizes(cs, c, Leaf(parent, depth, cashout));
  }

  lemma LeafParents(cs: Comments, c: Id, x: Comment)
    ensures ParentsOf(cs[c := x]) == ParentsOf(cs)[c := x.parent]
  {
  }

  lemma LeafValues(cs: Comments, c: Id, x: Comment)
    ensures Values(cs[c := x]) == Values(cs)[c := Value(x.net)] && SharesOf(cs[c := x]) == SharesOf(cs)[c := x.shares]
  {
  }

  lemma LeafSizes(cs: Comments, c: Id, x: Comment)
    ensures Sizes(cs[c := x]) == Sizes(cs)[c := x.children + 1] && Ones(cs[c := x]) == Ones(cs)[c := 1]
  {
  }

  lemma LeafShape(cs: Comments, c: Id, parent: Option<Id>, depth: nat, cashout: int)
    requires Shaped(cs) && c !in cs
    requires match parent case None => depth == 0 case Some(p) => p in cs && depth == cs[p].depth + 1
    ensures Shaped(cs[c := Leaf(parent, depth, cashout)])
    ensures forall d :: d in ParentsOf(cs) ==> ParentsOf(cs)[d] != Some(c)
  {
    forall d | d in cs ensures cs[d].parent != Some(c) {
    }
  }

  lemma NothingOwed(parents: Parents, own: map<Id, int>, cache: map<Id, int>, at: Option<Id>)
    requires NodesAgree(parents, own, cache, at, 0)
    ensures NodesAgree(parents, own, cache, None, 0)
    ensures forall top :: TopAgrees(parents, cache, top, at, 0) ==> TopAgrees(parents, cache, top, None, 0)
  {
    forall c | c in parents ensures cache[c] + Owed(None, Some(c), 0) == own[c] + Held(cache, parents, Some(c)) {
      assert cache[c] + Owed(at, Some(c), 0) == own[c] + Held(cache, parents, Some(c));
    }
  }

  lemma LeafLeaves(cs: Comments, total: int, c: Id)
    requires ForestOk(cs, total) && c in cs && cs[c].children == 0 && cs[c].net <= 0
    ensures var cs' := cs - {c};
            && Shaped(cs') && SharesAgree(cs', Values(cs'), total, None, 0) && CountsAgree(cs', cs[c].parent, -1)
  {
    hide NodesAgree, TopAgrees, ParentsOf, Values, SharesOf, Sizes, Ones, Shaped;
    InTables(cs, c);
    NoSelfParent(cs, c);
    NoReplies(cs, total, c);
    DropMaps(cs, c);
    LeafDropped(ParentsOf(cs), Values(cs), SharesOf(cs), c);
    LeafDropped(ParentsOf(cs), Ones(cs), Sizes(cs), c);
    NothingOwed(ParentsOf(cs - {c}), Values(cs - {c}), SharesOf(cs - {c}), cs[c].parent);
  }

  lemma DropMaps(cs: Comments, c: Id)
    ensures var cs' := cs - {c};
            && ParentsOf(cs') == ParentsOf(cs) - {c} && Values(cs') == Values(cs) - {c}
            && SharesOf(cs') == SharesOf(cs) - {c} && Ones(cs') == Ones(cs) - {c} && Sizes(cs') == Sizes(cs) - {c}
  {
  }

  /** A comment whose count is zero has no replies, and without a value of its own it holds nothing. */
  lemma NoReplies(cs: Comments, total: int, c: Id)
    requires ForestOk(cs, total) && c in cs && cs[c].children == 0
    ensures forall d :: d in cs ==> cs[d].parent != Some(c)
    ensures cs[c].shares == Value(cs[c].net)
    ensures Shaped(cs - {c})
  {
    forall d | d in cs ensures cs[d].parent != Some(c) {
      if cs[d].parent == Some(c) {
        ReplyIsCounted(cs, c, d);
      }
    }
    LeafHoldsItsOwn(cs, total, c);
    DropShape(cs, c);
  }

  lemma ReplyIsCounted(cs: Comments, c: Id, d: Id)
    requires CountsAgree(cs, None, 0) && c in cs && d in cs && cs[d].parent == Some(c)
    ensures cs[c].children > 0
  {
    InTables(cs, c);
    InTables(cs, d);
    TablesNonNegative(cs);
    hide NodesAgree, ParentsOf, Sizes, Ones, Held;
    AtNode(ParentsOf(cs), Ones(cs), Sizes(cs), None, 0, c);
    HeldCovers(Sizes(cs), ParentsOf(cs), d);
  }

  lemma LeafHoldsItsOwn(cs: Comments, total: int, c: Id)
    requires SharesAgree(cs, Values(cs), total, None, 0) && c in cs && forall d :: d in cs ==> cs[d].parent != Some(c)
    ensures cs[c].shares == Value(cs[c].net)
  {
    InTables(cs, c);
    assert forall d :: d in ParentsOf(cs) ==> ParentsOf(cs)[d] != Some(c);
    hide NodesAgree, ParentsOf, SharesOf, Values, Held;
    AtNode(ParentsOf(cs), Values(cs), SharesOf(cs), None, 0, c);
    NothingBelow(SharesOf(cs), ParentsOf(cs), c);
  }

  lemma DropShape(cs: Comments, c: Id)
    requires Shaped(cs) && forall d :: d in cs ==> cs[d].parent != Some(c)
    ensures Shaped(cs - {c})
  {
    var cs' := cs - {c};
    forall d | d in cs'
      ensures match cs'[d].parent
              case None => cs'[d].depth == 0
              case Some(p) => p in cs' && cs'[d].depth == cs'[p].depth + 1
    {
      assert cs[d].parent == cs'[d].parent;
    }
  }

  // ----- finishing a walk -----

  lemma TopSettles(cs: Comments, own: map<Id, int>, total: int, owed: int)
    requires SharesAgree(cs, own, total, None, owed)
    ensures SharesAgree(cs, own, total + owed, None, 0)
  {
    NobodyOwes(ParentsOf(cs), own, SharesOf(cs), owed);
  }

  lemma NobodyOwes(parents: Parents, own: map<Id, int>, cache: map<Id, int>, owed: int)
    requires NodesAgree(parents, own, cache, None, owed)
    ensures NodesAgree(parents, own, cache, None, 0)
  {
    forall c | c in parents ensures cache[c] + Owed(None, Some(c), 0) == own[c] + Held(cache, parents, Some(c)) {
      AtNode(parents, own, cache, None, owed, c);
    }
  }

  lemma ValueWithinShares(cs: Comments, total: int, c: Id)
    requires SharesAgree(cs, Values(cs), total, None, 0) && c in cs
    ensures Value(cs[c].net) <= cs[c].shares
  {
    hide NodesAgree, Held, ParentsOf, Values, SharesOf;
    InTables(cs, c);
    TablesNonNegative(cs);
    AtNode(ParentsOf(cs), Values(cs), SharesOf(cs), None, 0, c);
    HeldNonNegative(SharesOf(cs), ParentsOf(cs), Some(c));
  }

  /** A comment's value becomes `v`: it owes the difference. */
  lemma ValueChanges(cs: Comments, total: int, c: Id, v: nat)
    requires SharesAgree(cs, Values(cs), total, None, 0) && c in cs
    ensures SharesAgree(cs, Values(cs)[c := v], total, Some(c), v - Value(cs[c].net))
  {
    hide NodesAgree, ParentsOf, Values, SharesOf;
    InTables(cs, c);
    OwnValueChanges(ParentsOf(cs), Values(cs), SharesOf(cs), c, v);
  }

  /** b differs from a only in the cached shares, or only in the reply counts. */
  ghost predicate SharesOnly(a: Comments, b: Comments) {
    a.Keys == b.Keys && forall c {:trigger b[c]} :: c in a ==> b[c] == a[c].(shares := b[c].shares)
  }

  ghost predicate ChildrenOnly(a: Comments, b: Comments) {
    a.Keys == b.Keys && forall c {:trigger b[c]} :: c in a ==> b[c] == a[c].(children := b[c].children)
  }

  lemma SharesOnlyTables(a: Comments, b: Comments)
    requires SharesOnly(a, b)
    ensures Values(b) == Values(a) && Sizes(b) == Sizes(a) && Ones(b) == Ones(a) && ParentsOf(b) == ParentsOf(a)
  {
  }

  lemma ChildrenOnlyTables(a: Comments, b: Comments)
    requires ChildrenOnly(a, b)
    ensures Values(b) == Values(a) && SharesOf(b) == SharesOf(a) && Ones(b) == Ones(a) && ParentsOf(b) == ParentsOf(a)
  {
  }
}
