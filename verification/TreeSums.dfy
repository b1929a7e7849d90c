/** Sums cached at the nodes of a forest: each node holds its own value plus what its replies hold.
    The local rule is kept node by node on the way up, and means the sum over the whole subtree. */
module TreeSums {
  import opened Common
  import opened MapSums

  type Id = nat
  type Parents = map<Id, Option<Id>>

  /** What the nodes directly below `g` hold; the roots are below nothing. */
  ghost function Held(cache: map<Id, int>, parents: Parents, g: Option<Id>): int {
    Sum(Group(cache, parents, g))
  }

  function Owed(at: Option<Id>, c: Option<Id>, amount: int): int {
    if at == c then amount else 0
  }

  /** Every node's cache is its own value and its replies' caches, except that `at` still has to add `owed`. */
  ghost predicate NodesAgree(parents: Parents, own: map<Id, int>, cache: map<Id, int>, at: Option<Id>, owed: int) {
    && parents.Keys == own.Keys == cache.Keys
    && forall c {:trigger cache[c]} {:trigger own[c]} :: c in parents ==>
         cache[c] + Owed(at, Some(c), owed) == own[c] + Held(cache, parents, Some(c))
  }

  ghost predicate TopAgrees(parents: Parents, cache: map<Id, int>, top: int, at: Option<Id>, owed: int) {
    top + Owed(at, None, owed) == Held(cache, parents, None)
  }

  /** The rule at one node. */
  lemma AtNode(parents: Parents, own: map<Id, int>, cache: map<Id, int>, at: Option<Id>, owed: int, c: Id)
    requires NodesAgree(parents, own, cache, at, owed) && c in parents
    ensures c in cache && c in own && cache[c] + Owed(at, Some(c), owed) == own[c] + Held(cache, parents, Some(c))
  {
    assert cache[c] == cache[c];
  }

  /** A node's parent holds at least what the node holds. */
  lemma HeldCovers(cache: map<Id, int>, parents: Parents, c: Id)
    requires c in cache && c in parents && forall d :: d in cache ==> cache[d] >= 0
    ensures cache[c] <= Held(cache, parents, parents[c])
  {
    var group: map<Id, int> := Group(cache, parents, parents[c]);
    assert group[c] == cache[c];
    SumAtLeast(group, c);
  }

  lemma HeldNonNegative(cache: map<Id, int>, parents: Parents, g: Option<Id>)
    requires forall d :: d in cache ==> cache[d] >= 0
    ensures Held(cache, parents, g) >= 0
  {
    SumNonNegative(Group(cache, parents, g));
  }

  // ----- one step at a time -----

  lemma HeldAfterUpdate(cache: map<Id, int>, parents: Parents, c: Id, v: int, g: Option<Id>)
    requires c in cache && c in parents
    ensures Held(cache[c := v], parents, g) == Held(cache, parents, g) + if parents[c] == g then v - cache[c] else 0
  {
    assert parents[c := parents[c]] == parents;
    GroupPut(cache, parents, c, v, parents[c], g);
  }

  /** Adding what is owed at a node moves the debt to its parent, or to the top. */
  lemma DebtMovesUp(parents: Parents, own: map<Id, int>, cache: map<Id, int>, c: Id, owed: int)
    requires c in parents && parents[c] != Some(c) && NodesAgree(parents, own, cache, Some(c), owed)
    ensures NodesAgree(parents, own, cache[c := cache[c] + owed], parents[c], owed)
    ensures forall top :: TopAgrees(parents, cache, top, Some(c), owed) ==>
              TopAgrees(parents, cache[c := cache[c] + owed], top, parents[c], owed)
  {
    hide Held;
    var cache' := cache[c := cache[c] + owed];
    forall d | d in parents
      ensures cache'[d] + Owed(parents[c], Some(d), owed) == own[d] + Held(cache', parents, Some(d))
    {
      assert cache[d] + Owed(Some(c), Some(d), owed) == own[d] + Held(cache, parents, Some(d));
      HeldAfterUpdate(cache, parents, c, cache[c] + owed, Some(d));
    }
    HeldAfterUpdate(cache, parents, c, cache[c] + owed, None);
  }

  /** A node's own value changes: the node owes the difference. */
  lemma OwnValueChanges(parents: Parents, own: map<Id, int>, cache: map<Id, int>, c: Id, v: int)
    requires c in parents && NodesAgree(parents, own, cache, None, 0)
    ensures NodesAgree(parents, own[c := v], cache, Some(c), v - own[c])
  {
    forall d | d in parents
      ensures cache[d] + Owed(Some(c), Some(d), v - own[c]) == own[c := v][d] + Held(cache, parents, Some(d))
    {
      assert cache[d] + Owed(None, Some(d), 0) == own[d] + Held(cache, parents, Some(d));
    }
  }

  lemma HeldAfterLeaf(cache: map<Id, int>, parents: Parents, c: Id, v: int, p: Option<Id>, g: Option<Id>)
    requires c !in cache && c !in parents
    ensures Held(cache[c := v], parents[c := p], g) == Held(cache, parents, g) + if p == g then v else 0
  {
    GroupPut(cache, parents, c, v, p, g);
  }

  lemma NothingBelow(cache: map<Id, int>, parents: Parents, c: Id)
    requires forall d :: d in parents ==> parents[d] != Some(c)
    ensures Held(cache, parents, Some(c)) == 0
  {
    assert Group(cache, parents, Some(c)) == map[];
  }

  /** A new leaf below `p`: `p` owes its value. */
  lemma LeafAdded(parents: Parents, own: map<Id, int>, cache: map<Id, int>, c: Id, v: int, p: Option<Id>)
    requires c !in parents && NodesAgree(parents, own, cache, None, 0) && (p.Some? ==> p.value in parents)
    requires forall d :: d in parents ==> parents[d] != Some(c)
    ensures NodesAgree(parents[c := p], own[c := v], cache[c := v], p, v)
    ensures forall top :: TopAgrees(parents, cache, top, None, 0) ==>
              TopAgrees(parents[c := p], cache[c := v], top, p, v)
  {
    hide Held;
    NothingBelow(cache, parents, c);
    var parents', own', cache' := parents[c := p], own[c := v], cache[c := v];
    forall d | d in parents'
      ensures cache'[d] + Owed(p, Some(d), v) == own'[d] + Held(cache', parents', Some(d))
    {
      HeldAfterLeaf(cache, parents, c, v, p, Some(d));
      if d != c {
        assert cache[d] + Owed(None, Some(d), 0) == own[d] + Held(cache, parents, Some(d));
      }
    }
    HeldAfterLeaf(cache, parents, c, v, p, None);
  }

  lemma HeldAfterDrop(cache: map<Id, int>, parents: Parents, c: Id, g: Option<Id>)
    requires c in cache && c in parents
    ensures Held(cache - {c}, parents - {c}, g) == Held(cache, parents, g) - if parents[c] == g then cache[c] else 0
  {
    GroupDrop(cache, parents, c, g);
  }

  /** A leaf is removed: its parent owes its value back. */
  lemma LeafDropped(parents: Parents, own: map<Id, int>, cache: map<Id, int>, c: Id)
    requires c in parents && parents[c] != Some(c) && NodesAgree(parents, own, cache, None, 0)
    ensures NodesAgree(parents - {c}, own - {c}, cache - {c}, parents[c], 0 - cache[c])
    ensures forall top :: TopAgrees(parents, cache, top, None, 0) ==>
              TopAgrees(parents - {c}, cache - {c}, top, parents[c], 0 - cache[c])
  {
    forall d | d in parents - {c}
      ensures cache[d] + Owed(parents[c], Some(d), 0 - cache[c])
              == own[d] + Held(cache - {c}, parents - {c}, Some(d))
    {
      assert cache[d] + Owed(None, Some(d), 0) == own[d] + Held(cache, parents, Some(d));
      HeldAfterDrop(cache, parents, c, Some(d));
    }
    HeldAfterDrop(cache, parents, c, None);
  }

  // ----- what the local rule means -----

  ghost function Part(m: map<Id, int>, s: set<Id>): map<Id, int> {
    map c | c in m && c in s :: m[c]
  }

  ghost function Somes(s: set<Id>): set<Option<Id>> {
    set c | c in s :: Some(c)
  }

  /** Summing the own values over any set of nodes leaves what the set holds minus what is held directly
      below the set. */
  lemma SumOverSet(parents: Parents, own: map<Id, int>, cache: map<Id, int>, s: set<Id>)
    requires NodesAgree(parents, own, cache, None, 0) && s <= parents.Keys
    ensures Sum(Part(cache, s)) == Sum(Part(own, s)) + Sum(Members(cache, parents, Somes(s)))
  {
    var below := map c | c in s :: Held(cache, parents, Some(c));
    forall c | c in s ensures Part(cache, s)[c] == Part(own, s)[c] + below[c] {
      assert cache[c] + Owed(None, Some(c), 0) == own[c] + Held(cache, parents, Some(c));
    }
    assert Part(cache, s).Keys == Part(own, s).Keys == below.Keys;
    SumAdd(Part(own, s), below, Part(cache, s));
    SumByGroup(cache, parents, Somes(s));
    Relabel(below, GroupSums(cache, parents, Somes(s)), s);
  }

  /** The same values under the names `c` and `Some(c)`. */
  lemma {:induction false} Relabel(a: map<Id, int>, b: map<Option<Id>, int>, s: set<Id>)
    requires a.Keys == s && b.Keys == Somes(s) && forall c :: c in s ==> a[c] == b[Some(c)]
    ensures Sum(a) == Sum(b)
    decreases s
  {
    if s == {} {
      assert a == map[] && b == map[];
    } else {
      var c :| c in s;
      SumRemove(a, c);
      SumRemove(b, Some(c));
      assert Somes(s - {c}) == Somes(s) - {Some(c)};
      assert (b - {Some(c)}).Keys == Somes(s - {c});
      Relabel(a - {c}, b - {Some(c)}, s - {c});
    }
  }

  /** `s` is everything at or below `c`: apart from `c` itself, exactly the nodes whose parent is in `s`. */
  ghost predicate IsSubtree(parents: Parents, s: set<Id>, c: Id) {
    && c in s && s <= parents.Keys
    && forall d {:trigger parents[d]} :: d in parents ==>
         (d in s && d != c <==> parents[d].Some? && parents[d].value in s)
  }

  /** A node's cache is the sum of the own values in its subtree. */
  lemma CacheIsSubtreeSum(parents: Parents, own: map<Id, int>, cache: map<Id, int>, s: set<Id>, c: Id)
    requires NodesAgree(parents, own, cache, None, 0) && IsSubtree(parents, s, c)
    ensures cache[c] == Sum(Part(own, s))
  {
    hide Held;
    SumOverSet(parents, own, cache, s);
    SumRemove(Part(cache, s), c);
    BelowSubtree(parents, cache, s, c);
  }

  lemma BelowSubtree(parents: Parents, cache: map<Id, int>, s: set<Id>, c: Id)
    requires parents.Keys == cache.Keys && IsSubtree(parents, s, c)
    ensures Members(cache, parents, Somes(s)) == Part(cache, s) - {c}
  {
    forall d | d in parents ensures parents[d] in Somes(s) <==> d in s && d != c {
    }
  }

  /** The top is the sum of all own values. */
  lemma TopIsTotal(parents: Parents, own: map<Id, int>, cache: map<Id, int>, top: int)
    requires NodesAgree(parents, own, cache, None, 0) && TopAgrees(parents, cache, top, None, 0)
    requires forall d {:trigger parents[d]} :: d in parents && parents[d].Some? ==> parents[d].value in parents
    ensures top == Sum(own)
  {
    hide Held;
    SumOverSet(parents, own, cache, parents.Keys);
    RootsHold(parents, cache);
    WholePart(own, parents.Keys);
    WholePart(cache, parents.Keys);
  }

  lemma WholePart(m: map<Id, int>, s: set<Id>)
    requires m.Keys == s
    ensures Part(m, s) == m
  {
  }

  lemma RootsHold(parents: Parents, cache: map<Id, int>)
    requires parents.Keys == cache.Keys
    requires forall d {:trigger parents[d]} :: d in parents && parents[d].Some? ==> parents[d].value in parents
    ensures Sum(Members(cache, parents, Somes(parents.Keys))) + Held(cache, parents, None) == Sum(cache)
  {
    InnerAndRoots(parents, cache, parents.Keys);
    SumUnion(Members(cache, parents, Somes(parents.Keys)), Group(cache, parents, None));
  }

  lemma InnerAndRoots(parents: Parents, cache: map<Id, int>, s: set<Id>)
    requires parents.Keys == cache.Keys == s
    requires forall d {:trigger parents[d]} :: d in parents && parents[d].Some? ==> parents[d].value in parents
    ensures Members(cache, parents, Somes(s)).Keys !! Group(cache, parents, None).Keys
    ensures Members(cache, parents, Somes(s)) + Group(cache, parents, None) == cache
  {
    forall d | d in cache ensures parents[d] in Somes(s) || parents[d] == None {
    }
  }
}
