/** Sums over finite maps: the common vocabulary of every accounting invariant in the project.
    A total kept by the chain (votes, supplies, caches) is always compared with such a sum. */
module MapSums {

  /** The sum of the values of `m`. */
  ghost function Sum<K>(m: map<K, int>): int {
    if m == map[] then 0
    else
      var k :| k in m;
      m[k] + Sum(m - {k})
  }

  /** The sum does not depend on the order in which the keys are taken out. */
  lemma {:induction false} SumRemove<K>(m: map<K, int>, k: K)
    requires k in m
    ensures Sum(m) == m[k] + Sum(m - {k})
    decreases |m|
  {
    var c :| c in m && Sum(m) == m[c] + Sum(m - {c});
    if c != k {
      SumRemove(m - {c}, k);
      SumRemove(m - {k}, c);
      assert (m - {c}) - {k} == (m - {k}) - {c};
    }
  }

  lemma SumUpdate<K>(m: map<K, int>, k: K, v: int)
    ensures Sum(m[k := v]) == Sum(m) + v - (if k in m then m[k] else 0)
  {
    var n := m[k := v];
    SumRemove(n, k);
    if k in m {
      SumRemove(m, k);
      assert n - {k} == m - {k};
    } else {
      assert n - {k} == m;
    }
  }

  /** Two disjoint parts add up. */
  lemma {:induction false} SumUnion<K>(a: map<K, int>, b: map<K, int>)
    requires a.Keys !! b.Keys
    ensures Sum(a + b) == Sum(a) + Sum(b)
    decreases |a|
  {
    if a == map[] {
      assert a + b == b;
    } else {
      var k :| k in a;
      SumRemove(a, k);
      SumUnion(a - {k}, b);
      SumUpdate((a - {k}) + b, k, a[k]);
      PutBack(a, b, k);
    }
  }

  lemma PutBack<K>(a: map<K, int>, b: map<K, int>, k: K)
    requires a.Keys !! b.Keys
    requires k in a
    ensures ((a - {k}) + b)[k := a[k]] == a + b
  {
  }

  /** Pointwise addition on a common domain. */
  lemma {:induction false} SumAdd<K>(a: map<K, int>, b: map<K, int>, c: map<K, int>)
    requires a.Keys == b.Keys == c.Keys
    requires forall k :: k in a ==> c[k] == a[k] + b[k]
    ensures Sum(c) == Sum(a) + Sum(b)
    decreases |a|
  {
    if a != map[] {
      var k :| k in a;
      SumRemove(a, k);
      SumRemove(b, k);
      SumRemove(c, k);
      assert (a - {k}).Keys == (b - {k}).Keys == (c - {k}).Keys;
      SumAdd(a - {k}, b - {k}, c - {k});
    } else {
      assert b == map[] && c == map[];
    }
  }

  /** A part of a pointwise larger map of non-negative values sums to no more. */
  lemma {:induction false} SumMonotone<K>(a: map<K, int>, b: map<K, int>)
    requires a.Keys <= b.Keys
    requires forall k :: k in a ==> a[k] <= b[k]
    requires forall k :: k in b && k !in a ==> 0 <= b[k]
    ensures Sum(a) <= Sum(b)
    decreases |b|
  {
    if b != map[] {
      var k :| k in b;
      SumRemove(b, k);
      if k in a {
        SumRemove(a, k);
        SumMonotone(a - {k}, b - {k});
      } else {
        assert a - {k} == a;
        SumMonotone(a, b - {k});
      }
    } else {
      assert a == map[];
    }
  }

  lemma SumNonNegative<K>(m: map<K, int>)
    requires forall k :: k in m ==> 0 <= m[k]
    ensures 0 <= Sum(m)
  {
    var none: map<K, int> := map[];
    SumMonotone(none, m);
  }

  /** A single value of a map of non-negative values is at most the sum. */
  lemma SumAtLeast<K>(m: map<K, int>, k: K)
    requires k in m
    requires forall j :: j in m ==> 0 <= m[j]
    ensures m[k] <= Sum(m)
  {
    SumRemove(m, k);
    SumNonNegative(m - {k});
  }

  /** The entries of `m` that a grouping sends to `g`. */
  ghost function Group<K, G>(m: map<K, int>, key: map<K, G>, g: G): map<K, int> {
    map k | k in m && k in key && key[k] == g :: m[k]
  }

  ghost function GroupSums<K, G>(m: map<K, int>, key: map<K, G>, groups: set<G>): map<G, int> {
    map g | g in groups :: Sum(Group(m, key, g))
  }

  ghost function Members<K, G>(m: map<K, int>, key: map<K, G>, groups: set<G>): map<K, int> {
    map k | k in m && k in key && key[k] in groups :: m[k]
  }

  /** Exchange of summation: grouping the entries of `m` by `key` and summing the groups
      over `groups` counts every entry whose group is in `groups` exactly once. */
  lemma {:induction false} SumByGroup<K, G>(m: map<K, int>, key: map<K, G>, groups: set<G>)
    ensures Sum(GroupSums(m, key, groups)) == Sum(Members(m, key, groups))
    decreases groups
  {
    if groups == {} {
      assert GroupSums(m, key, groups) == map[];
      assert Members(m, key, groups) == map[];
    } else {
      var g :| g in groups;
      var rest := groups - {g};
      SumRemove(GroupSums(m, key, groups), g);
      assert GroupSums(m, key, groups) - {g} == GroupSums(m, key, rest);
      SumByGroup(m, key, rest);
      SplitMembers(m, key, groups, g);
      SumUnion(Group(m, key, g), Members(m, key, rest));
    }
  }

  lemma SplitMembers<K, G>(m: map<K, int>, key: map<K, G>, groups: set<G>, g: G)
    requires g in groups
    ensures Group(m, key, g).Keys !! Members(m, key, groups - {g}).Keys
    ensures Members(m, key, groups) == Group(m, key, g) + Members(m, key, groups - {g})
  {
  }

  /** Putting an entry changes the sum of its group, and of the group it was in before. */
  lemma GroupPut<K, G>(m: map<K, int>, key: map<K, G>, k: K, v: int, p: G, g: G)
    requires k in m <==> k in key
    ensures Sum(Group(m[k := v], key[k := p], g)) ==
            Sum(Group(m, key, g)) + (if p == g then v else 0) - (if k in m && key[k] == g then m[k] else 0)
  {
    var before, after := Group(m, key, g), Group(m[k := v], key[k := p], g);
    if p == g {
      SumUpdate(before, k, v);
      assert after == before[k := v];
    } else if k in before {
      SumRemove(before, k);
      assert after == before - {k};
    } else {
      assert after == before;
    }
  }

  lemma GroupDrop<K, G>(m: map<K, int>, key: map<K, G>, k: K, g: G)
    requires k in m && k in key
    ensures Sum(Group(m - {k}, key - {k}, g)) == Sum(Group(m, key, g)) - if key[k] == g then m[k] else 0
  {
    if key[k] == g {
      SumRemove(Group(m, key, g), k);
      assert Group(m - {k}, key - {k}, g) == Group(m, key, g) - {k};
    } else {
      assert Group(m - {k}, key - {k}, g) == Group(m, key, g);
    }
  }

  lemma {:induction false} SumOfZeros<K>(m: map<K, int>)
    requires forall k :: k in m ==> m[k] == 0
    ensures Sum(m) == 0
    decreases |m|
  {
    if m != map[] {
      var k :| k in m;
      SumRemove(m, k);
      SumOfZeros(m - {k});
    }
  }
}
