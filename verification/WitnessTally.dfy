/** Witness votes on top of the proxy forest, on values: what the incremental walk up the
    proxy chain still owes at each step, and why no witness can hold more than all stake. */
module WitnessTally {
  import opened Common
  import opened MapSums
  import opened ProxyForest

  /** witness_vote_index: (voter, witness) pairs. */
  type Records = set<(Name, Name)>

  /** The direct voters of `w` with their weights, leaving out `detached`. */
  ghost function Backing(accounts: Accounts, records: Records, detached: Name, w: Name): map<Name, int> {
    map a | a in accounts && a != detached && (a, w) in records :: Weight(accounts[a])
  }

  ghost predicate VotesAgree(accounts: Accounts, records: Records, witnesses: map<Name, int>, detached: Name) {
    forall w {:trigger Backing(accounts, records, detached, w)} ::
      w in witnesses ==> witnesses[w] == Sum(Backing(accounts, records, detached, w))
  }

  /** Vote records name existing voters and witnesses, and a proxied account holds none. */
  ghost predicate RecordsOk(accounts: Accounts, records: Records, witnesses: map<Name, int>) {
    forall r :: r in records ==> r.0 in accounts && r.1 in witnesses && accounts[r.0].proxy == NOBODY
  }

  ghost predicate NonNegativeStake(accounts: Accounts) {
    forall a :: a in accounts ==> 0 <= accounts[a].vests
  }

  // ----- no witness above the total -----

  lemma {:induction false} LevelsNonNegative(accounts: Accounts, detached: Name, a: Name, i: nat)
    requires LevelsAgree(accounts, detached) && NonNegativeStake(accounts)
    requires a in accounts && i <= MAX_PROXY_DEPTH
    ensures 0 <= Level(accounts[a], i)
    decreases i
  {
    if i > 0 {
      forall c | c in accounts ensures 0 <= Level(accounts[c], i - 1) {
        LevelsNonNegative(accounts, detached, c, i - 1);
      }
      SumNonNegative(Below(accounts, detached, a, i - 1));
    }
  }

  lemma WeightsNonNegative(accounts: Accounts, detached: Name, a: Name)
    requires LevelsAgree(accounts, detached) && NonNegativeStake(accounts)
    requires a in accounts
    ensures 0 <= Level(accounts[a], MAX_PROXY_DEPTH) <= Weight(accounts[a])
  {
    forall i: nat | i <= MAX_PROXY_DEPTH ensures 0 <= Level(accounts[a], i) {
      LevelsNonNegative(accounts, detached, a, i);
    }
  }

  /** The votes behind one witness never exceed the stake in existence. */
  lemma BackingWithinTotal(accounts: Accounts, records: Records, witnesses: map<Name, int>, detached: Name, w: Name)
    requires WellFormed(accounts) && LevelsAgree(accounts, detached) && NonNegativeStake(accounts)
    requires RecordsOk(accounts, records, witnesses)
    ensures Sum(Backing(accounts, records, detached, w)) <= Sum(AllStakes(accounts))
  {
    TallyIsTotalStake(accounts, detached);
    forall a | a in accounts ensures 0 <= Tally(accounts, detached)[a] {
      WeightsNonNegative(accounts, detached, a);
    }
    var backing, tally := Backing(accounts, records, detached, w), Tally(accounts, detached);
    forall a | a in backing ensures a in tally && backing[a] <= tally[a] {
      assert (a, w) in records;
    }
    SumMonotone(backing, tally);
  }

  // ----- the walk up the proxy chain -----

  /** The share of `delta` that the account `depth` hops above the origin adds to its level i + 1. */
  function Shift(delta: seq<int>, depth: nat, i: nat): int
    requires |delta| == MAX_PROXY_DEPTH + 1 && i < MAX_PROXY_DEPTH
  {
    if i >= depth then delta[i - depth] else 0
  }

  /** The share of `delta` that still counts at an account `depth` hops above the origin. */
  function Total(delta: seq<int>, depth: nat): int
    requires |delta| == MAX_PROXY_DEPTH + 1 && depth <= MAX_PROXY_DEPTH
  {
    SeqSum(delta[..MAX_PROXY_DEPTH + 1 - depth])
  }

  function SeqSum(s: seq<int>): int {
    if s == [] then 0 else SeqSum(s[..|s| - 1]) + s[|s| - 1]
  }

  /** Everything agrees except that the proxy of `a` has not yet heard of `delta`,
      and the witnesses `a` votes for have not been told either. */
  ghost predicate Owing(accounts: Accounts, records: Records, witnesses: map<Name, int>, detached: Name, a: Name,
                        delta: seq<int>, depth: nat)
    requires a in accounts && |delta| == MAX_PROXY_DEPTH + 1 && depth <= MAX_PROXY_DEPTH
  {
    && LevelsOwing(accounts, detached, accounts[a].proxy, delta, depth)
    && VotesOwing(accounts, records, witnesses, detached, a, Total(delta, depth))
  }

  ghost predicate LevelsOwing(accounts: Accounts, detached: Name, q: Name, delta: seq<int>, depth: nat)
    requires |delta| == MAX_PROXY_DEPTH + 1
  {
    forall b, i :: b in accounts && 0 <= i < MAX_PROXY_DEPTH ==>
      Level(accounts[b], i + 1) + (if b == q then Shift(delta, depth, i) else 0)
        == Sum(Below(accounts, detached, b, i))
  }

  ghost predicate VotesOwing(accounts: Accounts, records: Records, witnesses: map<Name, int>, detached: Name, a: Name,
                             owed: int) {
    forall w {:trigger Backing(accounts, records, detached, w)} :: w in witnesses ==>
      witnesses[w] + (if (a, w) in records then owed else 0) == Sum(Backing(accounts, records, detached, w))
  }

  /** `q` after the update at hop `depth` + 1. */
  ghost predicate Told(old_: Account, new_: Account, delta: seq<int>, depth: nat)
    requires |delta| == MAX_PROXY_DEPTH + 1
  {
    && new_ == old_.(proxied := new_.proxied)
    && forall i :: 0 <= i < MAX_PROXY_DEPTH ==> new_.proxied[i] == old_.proxied[i] + Shift(delta, depth, i)
  }

  /** Only the cached levels differ. */
  ghost predicate SameButLevels(before: Accounts, after: Accounts) {
    && before.Keys == after.Keys
    && forall a :: a in before ==> after[a] == before[a].(proxied := after[a].proxied)
  }

  lemma {:induction false} RootAfterUnique(proxies: map<Name, Name>, a: Name, m: nat, n: nat)
    requires RootAfter(proxies, a, m) && RootAfter(proxies, a, n)
    ensures m == n
    decreases m
  {
    if m > 0 && n > 0 {
      RootAfterUnique(proxies, proxies[a], m - 1, n - 1);
    }
  }

  lemma ToldWeight(old_: Account, new_: Account, delta: seq<int>, depth: nat)
    requires |delta| == MAX_PROXY_DEPTH + 1 && depth < MAX_PROXY_DEPTH
    requires Told(old_, new_, delta, depth)
    ensures Weight(new_) == Weight(old_) + Total(delta, depth + 1)
  {
    assert new_.proxied[0] == old_.proxied[0] + Shift(delta, depth, 0);
    assert new_.proxied[1] == old_.proxied[1] + Shift(delta, depth, 1);
    assert new_.proxied[2] == old_.proxied[2] + Shift(delta, depth, 2);
    assert new_.proxied[3] == old_.proxied[3] + Shift(delta, depth, 3);
    assert delta[..1][..0] == [] && delta[..2][..1] == delta[..1];
    assert delta[..3][..2] == delta[..2] && delta[..4][..3] == delta[..3];
    assert SeqSum(delta[..1]) == delta[0];
    assert SeqSum(delta[..2]) == SeqSum(delta[..1]) + delta[1];
    assert SeqSum(delta[..3]) == SeqSum(delta[..2]) + delta[2];
    assert SeqSum(delta[..4]) == SeqSum(delta[..3]) + delta[3];
  }

  lemma BelowAfterTelling(accounts: Accounts, detached: Name, q: Name, new_: Account, b: Name, i: nat)
    requires q in accounts && q != detached
    requires new_.proxy == accounts[q].proxy
    requires i <= MAX_PROXY_DEPTH
    ensures Sum(Below(accounts[q := new_], detached, b, i)) == Sum(Below(accounts, detached, b, i))
        + if accounts[q].proxy == b then Level(new_, i) - Level(accounts[q], i) else 0
  {
    var before, after := Below(accounts, detached, b, i), Below(accounts[q := new_], detached, b, i);
    if accounts[q].proxy == b {
      SumUpdate(before, q, Level(new_, i));
      assert after == before[q := Level(new_, i)];
    } else {
      assert after == before;
    }
  }

  lemma BackingAfterTelling(accounts: Accounts, records: Records, detached: Name, q: Name, new_: Account, w: Name)
    requires q in accounts && q != detached
    requires new_.proxy == accounts[q].proxy
    ensures Sum(Backing(accounts[q := new_], records, detached, w)) == Sum(Backing(accounts, records, detached, w))
        + if (q, w) in records then Weight(new_) - Weight(accounts[q]) else 0
  {
    var before, after := Backing(accounts, records, detached, w), Backing(accounts[q := new_], records, detached, w);
    if (q, w) in records {
      SumUpdate(before, q, Weight(new_));
      assert after == before[q := Weight(new_)];
    } else {
      assert after == before;
    }
  }

  lemma LevelsMoveUp(accounts: Accounts, accounts': Accounts, detached: Name, q: Name, delta: seq<int>, depth: nat)
    requires WellFormed(accounts) && WellFormed(accounts') && q in accounts && q != detached
    requires accounts[q].proxy != q
    requires |delta| == MAX_PROXY_DEPTH + 1 && depth < MAX_PROXY_DEPTH
    requires q in accounts' && accounts' == accounts[q := accounts'[q]]
    requires Told(accounts[q], accounts'[q], delta, depth)
    requires LevelsOwing(accounts, detached, q, delta, depth)
    ensures LevelsOwing(accounts', detached, accounts[q].proxy, delta, depth + 1)
  {
    forall b, i | b in accounts' && 0 <= i < MAX_PROXY_DEPTH
      ensures Level(accounts'[b], i + 1) + (if b == accounts[q].proxy then Shift(delta, depth + 1, i) else 0)
              == Sum(Below(accounts', detached, b, i))
    {
      BelowAfterTelling(accounts, detached, q, accounts'[q], b, i);
    }
  }

  lemma VotesMoveUp(accounts: Accounts, accounts': Accounts, records: Records, witnesses: map<Name, int>,
                    detached: Name, a: Name, q: Name, delta: seq<int>, depth: nat)
    requires WellFormed(accounts) && WellFormed(accounts') && q in accounts && q != detached
    requires a in accounts && accounts[a].proxy != NOBODY && RecordsOk(accounts, records, witnesses)
    requires |delta| == MAX_PROXY_DEPTH + 1 && depth < MAX_PROXY_DEPTH
    requires q in accounts' && accounts' == accounts[q := accounts'[q]]
    requires Told(accounts[q], accounts'[q], delta, depth)
    requires VotesOwing(accounts, records, witnesses, detached, a, Total(delta, depth))
    ensures VotesOwing(accounts', records, witnesses, detached, q, Total(delta, depth + 1))
  {
    ToldWeight(accounts[q], accounts'[q], delta, depth);
    forall w | w in witnesses
      ensures witnesses[w] + (if (q, w) in records then Total(delta, depth + 1) else 0)
              == Sum(Backing(accounts', records, detached, w))
    {
      BackingAfterTelling(accounts, records, detached, q, accounts'[q], w);
    }
  }

  /** Nobody on the chain above `a` is `a` itself, its own proxy, or the detached account below it. */
  lemma ChainIsStraight(accounts: Accounts, detached: Name, a: Name, depth: nat, n: nat)
    requires WellFormed(accounts) && a in accounts && accounts[a].proxy != NOBODY
    requires RootAfter(Proxies(accounts), a, n)
    requires detached == NOBODY || RootAfter(Proxies(accounts), detached, n + depth)
    ensures n > 0 && RootAfter(Proxies(accounts), accounts[a].proxy, n - 1)
    ensures accounts[a].proxy != detached
    ensures accounts[accounts[a].proxy].proxy != accounts[a].proxy
  {
    var q := accounts[a].proxy;
    if q == detached {
      RootAfterUnique(Proxies(accounts), q, n - 1, n + depth);
      assert false;
    }
    if accounts[q].proxy == q {
      RootAfterUnique(Proxies(accounts), q, n - 1, n - 2);
      assert false;
    }
  }

  lemma ToldKeepsShape(accounts: Accounts, accounts': Accounts, q: Name, delta: seq<int>, depth: nat)
    requires WellFormed(accounts) && q in accounts && |delta| == MAX_PROXY_DEPTH + 1
    requires q in accounts' && accounts' == accounts[q := accounts'[q]] && Told(accounts[q], accounts'[q], delta, depth)
    ensures SameButLevels(accounts, accounts') && WellFormed(accounts')
    ensures Proxies(accounts') == Proxies(accounts)
  {
    assert accounts'.Keys == accounts.Keys;
    forall a | a in accounts ensures accounts'[a].proxy == accounts[a].proxy {
    }
  }

  /** Telling the proxy moves the debt one hop up the chain. */
  lemma OwingMovesUp(accounts: Accounts, accounts': Accounts, records: Records, witnesses: map<Name, int>,
                     detached: Name, a: Name, delta: seq<int>, depth: nat, n: nat)
    requires WellFormed(accounts) && a in accounts && RecordsOk(accounts, records, witnesses)
    requires |delta| == MAX_PROXY_DEPTH + 1 && depth < MAX_PROXY_DEPTH
    requires Owing(accounts, records, witnesses, detached, a, delta, depth)
    requires accounts[a].proxy != NOBODY
    requires RootAfter(Proxies(accounts), a, n)
    requires detached == NOBODY || RootAfter(Proxies(accounts), detached, n + depth)
    requires var q := accounts[a].proxy;
             q in accounts' && accounts' == accounts[q := accounts'[q]] && Told(accounts[q], accounts'[q], delta, depth)
    ensures WellFormed(accounts') && SameButLevels(accounts, accounts') && Proxies(accounts') == Proxies(accounts)
    ensures RecordsOk(accounts', records, witnesses)
    ensures n > 0 && RootAfter(Proxies(accounts), accounts[a].proxy, n - 1)
    ensures Owing(accounts', records, witnesses, detached, accounts[a].proxy, delta, depth + 1)
  {
    var q := accounts[a].proxy;
    ToldKeepsShape(accounts, accounts', q, delta, depth);
    ChainIsStraight(accounts, detached, a, depth, n);
    LevelsMoveUp(accounts, accounts', detached, q, delta, depth);
    VotesMoveUp(accounts, accounts', records, witnesses, detached, a, q, delta, depth);
  }

  /** Past the last level the debt is void: nobody above is told, and nothing is owed. */
  lemma OwingExpires(accounts: Accounts, records: Records, witnesses: map<Name, int>, detached: Name, a: Name,
                     delta: seq<int>)
    requires WellFormed(accounts) && a in accounts && RecordsOk(accounts, records, witnesses)
    requires |delta| == MAX_PROXY_DEPTH + 1
    requires Owing(accounts, records, witnesses, detached, a, delta, MAX_PROXY_DEPTH)
    requires accounts[a].proxy != NOBODY
    ensures LevelsAgree(accounts, detached)
    ensures VotesAgree(accounts, records, witnesses, detached)
  {
    forall b, i | b in accounts && 0 <= i < MAX_PROXY_DEPTH
      ensures Level(accounts[b], i + 1) == Sum(Below(accounts, detached, b, i))
    {
      assert Shift(delta, MAX_PROXY_DEPTH, i) == 0;
    }
  }
}
