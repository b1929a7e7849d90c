/** What each voting operation does to the sums, on values: detaching an account from the forest,
    releasing or attaching it, changing a stake, casting a ballot, and paying routes. */
module ProxyMoves {
  import opened Common
  import opened MapSums
  import opened ProxyForest
  import opened WitnessTally
  import opened VestingRoutes

  /** STEEMIT_MAX_ACCOUNT_WITNESS_VOTES */
  const MAX_WITNESS_VOTES := 30

  function Choices(records: Records, a: Name): set<Name> {
    set r | r in records && r.0 == a :: r.1
  }

  function Without(records: Records, x: Name): Records {
    set r | r in records && r.0 != x
  }

  ghost predicate CountsOk(accounts: Accounts, records: Records) {
    forall a {:trigger Choices(records, a)} :: a in accounts ==> accounts[a].votedFor == |Choices(records, a)|
  }

  /** The account whose votes carry the stake of `a`: the root of its chain if that is at most
      `hops` away, otherwise nobody. */
  ghost function Carrier(accounts: Accounts, a: Name, hops: nat): Name
    requires WellFormed(accounts) && a in accounts
    decreases hops
  {
    if accounts[a].proxy == NOBODY then a
    else if hops == 0 then NOBODY
    else Carrier(accounts, accounts[a].proxy, hops - 1)
  }

  ghost function LevelsOf(a: Account): seq<int> {
    [a.vests] + a.proxied
  }

  ghost function Negated(s: seq<int>): seq<int> {
    seq(|s|, i requires 0 <= i < |s| => -s[i])
  }

  // ----- value lemmas for the three moves: detach, release, attach -----

  lemma TotalOfLevels(a: Account)
    ensures Total(LevelsOf(a), 0) == Weight(a)
    ensures Total(Negated(LevelsOf(a)), 0) == -Weight(a)
  {
    UnrollSum(LevelsOf(a));
    UnrollSum(Negated(LevelsOf(a)));
  }

  lemma UnrollSum(s: seq<int>)
    requires |s| == MAX_PROXY_DEPTH + 1
    ensures Total(s, 0) == s[0] + s[1] + s[2] + s[3] + s[4]
  {
    assert s[..5] == s;
    assert s[..5][..4] == s[..4] && s[..4][..3] == s[..3] && s[..3][..2] == s[..2];
    assert s[..2][..1] == s[..1] && s[..1][..0] == [];
    assert SeqSum(s[..1]) == s[0];
    assert SeqSum(s[..2]) == SeqSum(s[..1]) + s[1];
    assert SeqSum(s[..3]) == SeqSum(s[..2]) + s[2];
    assert SeqSum(s[..4]) == SeqSum(s[..3]) + s[3];
  }

  /** Leaving `x` out of the sums takes away what it contributed. */
  lemma BelowWithout(accounts: Accounts, x: Name, b: Name, i: nat)
    requires NOBODY !in accounts && x in accounts
    ensures Sum(Below(accounts, NOBODY, b, i))
         == Sum(Below(accounts, x, b, i)) + if accounts[x].proxy == b then Level(accounts[x], i) else 0
  {
    var all, rest := Below(accounts, NOBODY, b, i), Below(accounts, x, b, i);
    if accounts[x].proxy == b {
      SumRemove(all, x);
      assert rest == all - {x};
    } else {
      assert rest == all;
    }
  }

  lemma BackingWithout(accounts: Accounts, records: Records, x: Name, w: Name)
    requires NOBODY !in accounts && x in accounts
    ensures Sum(Backing(accounts, records, NOBODY, w))
         == Sum(Backing(accounts, records, x, w)) + if (x, w) in records then Weight(accounts[x]) else 0
  {
    var all, rest := Backing(accounts, records, NOBODY, w), Backing(accounts, records, x, w);
    if (x, w) in records {
      SumRemove(all, x);
      assert rest == all - {x};
    } else {
      assert rest == all;
    }
  }

  /** Before the walk that takes `x` away: its whole level vector is owed, negated. */
  lemma DetachOwes(accounts: Accounts, records: Records, witnesses: map<Name, int>, x: Name, delta: seq<int>)
    requires NOBODY !in accounts && x in accounts && delta == Negated(LevelsOf(accounts[x]))
    requires LevelsAgree(accounts, NOBODY) && VotesAgree(accounts, records, witnesses, NOBODY)
    ensures Owing(accounts, records, witnesses, x, x, delta, 0)
  {
    TotalOfLevels(accounts[x]);
    forall b, i | b in accounts && 0 <= i < MAX_PROXY_DEPTH
      ensures Level(accounts[b], i + 1) + (if b == accounts[x].proxy then Shift(delta, 0, i) else 0)
           == Sum(Below(accounts, x, b, i))
    {
      BelowWithout(accounts, x, b, i);
    }
    forall w | w in witnesses
      ensures witnesses[w] + (if (x, w) in records then Total(delta, 0) else 0)
           == Sum(Backing(accounts, records, x, w))
    {
      BackingWithout(accounts, records, x, w);
    }
  }

  /** What is left out of a sum may be replaced. */
  lemma DetachedIsFree(accounts: Accounts, x: Name, new_: Account, b: Name, i: nat)
    requires x in accounts
    ensures Below(accounts[x := new_], x, b, i) == Below(accounts, x, b, i)
  {
  }

  /** Without its records `x` backs nobody. */
  lemma RecordsGone(accounts: Accounts, records: Records, x: Name, new_: Account, w: Name)
    requires NOBODY !in accounts && x in accounts
    ensures Backing(accounts[x := new_], Without(records, x), NOBODY, w) == Backing(accounts, records, x, w)
  {
  }

  /** A detached account whose proxy and records are cleared is a plain account again. */
  lemma ReleaseAgrees(accounts: Accounts, records: Records, witnesses: map<Name, int>, x: Name, released: Account,
                      records': Records)
    requires WellFormed(accounts) && x in accounts
    requires LevelsAgree(accounts, x) && VotesAgree(accounts, records, witnesses, x)
    requires released.proxied == accounts[x].proxied && released.vests == accounts[x].vests
    requires released.proxy == NOBODY
    requires records' == Without(records, x)
    ensures WellFormed(accounts[x := released])
    ensures LevelsAgree(accounts[x := released], NOBODY)
    ensures VotesAgree(accounts[x := released], records', witnesses, NOBODY)
  {
    var accounts' := accounts[x := released];
    forall b, i | b in accounts' && 0 <= i < MAX_PROXY_DEPTH
      ensures Level(accounts'[b], i + 1) == Sum(Below(accounts', NOBODY, b, i))
    {
      BelowWithout(accounts', x, b, i);
      DetachedIsFree(accounts, x, released, b, i);
    }
    forall w | w in witnesses ensures witnesses[w] == Sum(Backing(accounts', records', NOBODY, w)) {
      RecordsGone(accounts, records, x, released, w);
    }
  }

  /** Before the walk that adds `x` below its new proxy: its whole level vector is owed. */
  lemma AttachOwes(accounts: Accounts, records: Records, witnesses: map<Name, int>, x: Name, attached: Account,
                   records': Records)
    requires WellFormed(accounts) && x in accounts
    requires LevelsAgree(accounts, x) && VotesAgree(accounts, records, witnesses, x)
    requires attached.proxied == accounts[x].proxied && attached.vests == accounts[x].vests
    requires attached.proxy in accounts
    requires records' == Without(records, x)
    ensures WellFormed(accounts[x := attached])
    ensures Owing(accounts[x := attached], records', witnesses, NOBODY, x, LevelsOf(attached), 0)
  {
    var accounts' := accounts[x := attached];
    var delta := LevelsOf(attached);
    forall b, i | b in accounts' && 0 <= i < MAX_PROXY_DEPTH
      ensures Level(accounts'[b], i + 1) + (if b == attached.proxy then Shift(delta, 0, i) else 0)
           == Sum(Below(accounts', NOBODY, b, i))
    {
      BelowWithout(accounts', x, b, i);
      DetachedIsFree(accounts, x, attached, b, i);
    }
    forall w | w in witnesses ensures witnesses[w] == Sum(Backing(accounts', records', NOBODY, w)) {
      RecordsGone(accounts, records, x, attached, w);
    }
  }

  /** Before the scalar walk for a stake change of `x`: only the change is owed. */
  lemma StakeOwes(accounts: Accounts, records: Records, witnesses: map<Name, int>, x: Name, change: int)
    requires NOBODY !in accounts && x in accounts
    requires LevelsAgree(accounts, NOBODY) && VotesAgree(accounts, records, witnesses, NOBODY)
    ensures Owing(Staked(accounts, x, change), records, witnesses, NOBODY, x, [change, 0, 0, 0, 0], 0)
  {
    var accounts' := Staked(accounts, x, change);
    var new_ := accounts'[x];
    var delta := [change, 0, 0, 0, 0];
    UnrollSum(delta);
    forall b, i | b in accounts' && 0 <= i < MAX_PROXY_DEPTH
      ensures Level(accounts'[b], i + 1) + (if b == new_.proxy then Shift(delta, 0, i) else 0)
           == Sum(Below(accounts', NOBODY, b, i))
    {
      BelowAfterTelling(accounts, NOBODY, x, new_, b, i);
    }
    forall w | w in witnesses
      ensures witnesses[w] + (if (x, w) in records then Total(delta, 0) else 0)
           == Sum(Backing(accounts', records, NOBODY, w))
    {
      BackingAfterTelling(accounts, records, NOBODY, x, new_, w);
    }
  }

  /** A stake change keeps the shape and owes only itself. */
  lemma StakeReady(accounts: Accounts, records: Records, witnesses: map<Name, int>, x: Name, change: int)
    requires ShapeOk(accounts, records, witnesses.Keys) && x in accounts && 0 <= accounts[x].vests + change
    requires LevelsAgree(accounts, NOBODY) && VotesAgree(accounts, records, witnesses, NOBODY)
    ensures ShapeOk(Staked(accounts, x, change), records, witnesses.Keys)
    ensures SameProxies(accounts, Staked(accounts, x, change))
    ensures Sum(AllStakes(Staked(accounts, x, change))) == Sum(AllStakes(accounts)) + change
    ensures Owing(Staked(accounts, x, change), records, witnesses, NOBODY, x, [change, 0, 0, 0, 0], 0)
  {
    hide LevelsAgree, VotesAgree, Owing, AllStakes, SameProxies, CountsOk, Acyclic;
    StakeOwes(accounts, records, witnesses, x, change);
    StakeSumAfter(accounts, x, Staked(accounts, x, change)[x]);
    StakeKeepsShape(accounts, records, witnesses.Keys, x, change);
  }

  lemma StakeKeepsShape(accounts: Accounts, records: Records, witnesses: set<Name>, x: Name, change: int)
    requires ShapeOk(accounts, records, witnesses) && x in accounts && 0 <= accounts[x].vests + change
    ensures ShapeOk(Staked(accounts, x, change), records, witnesses)
    ensures SameProxies(accounts, Staked(accounts, x, change))
  {
    assert Proxies(Staked(accounts, x, change)) == Proxies(accounts);
  }

  lemma StakeSumAfter(accounts: Accounts, x: Name, new_: Account)
    requires x in accounts
    ensures Sum(AllStakes(accounts[x := new_])) == Sum(AllStakes(accounts)) + new_.vests - accounts[x].vests
  {
    SumUpdate(AllStakes(accounts), x, new_.vests);
    assert AllStakes(accounts[x := new_]) == AllStakes(accounts)[x := new_.vests];
  }

  // ----- acyclicity -----

  /** A walk that never steps from `x` does not notice a new proxy of `x`. */
  lemma {:induction false} WalkElsewhere(p: map<Name, Name>, p': map<Name, Name>, x: Name, a: Name, n: nat)
    requires forall b :: b != x ==> (b in p <==> b in p') && (b in p ==> p[b] == p'[b])
    requires RootAfter(p, a, n)
    requires forall i {:trigger Hop(p, a, i)} :: 0 <= i <= n ==> Hop(p, a, i) != x
    ensures RootAfter(p', a, n)
    decreases n
  {
    assert Hop(p, a, 0) != x;
    if n > 0 {
      forall i | 0 <= i <= n - 1 ensures Hop(p, p[a], i) != x {
        assert Hop(p, a, i + 1) != x;
      }
      WalkElsewhere(p, p', x, p[a], n - 1);
    }
  }

  /** If `x` still leads to a root, every account does. */
  lemma {:induction false} WalkThrough(p: map<Name, Name>, p': map<Name, Name>, x: Name, h: nat, a: Name, n: nat)
    returns (m: nat)
    requires forall b :: b != x ==> (b in p <==> b in p') && (b in p ==> p[b] == p'[b])
    requires RootAfter(p', x, h)
    requires RootAfter(p, a, n)
    ensures RootAfter(p', a, m)
    decreases n
  {
    if a == x {
      m := h;
    } else if n == 0 {
      m := 0;
    } else {
      m := WalkThrough(p, p', x, h, p[a], n - 1);
      m := m + 1;
    }
  }

  lemma AcyclicAfter(accounts: Accounts, x: Name, new_: Account, h: nat)
    requires WellFormed(accounts) && Acyclic(accounts) && x in accounts
    requires WellFormed(accounts[x := new_])
    requires RootAfter(Proxies(accounts[x := new_]), x, h)
    ensures Acyclic(accounts[x := new_])
  {
    var accounts' := accounts[x := new_];
    forall a | a in accounts' ensures HasRoot(Proxies(accounts'), a) {
      assert HasRoot(Proxies(accounts), a);
      var n :| RootAfter(Proxies(accounts), a, n);
      var m := WalkThrough(Proxies(accounts), Proxies(accounts'), x, h, a, n);
    }
  }

  lemma SameLevelsSameShape(before: Accounts, after: Accounts)
    requires WellFormed(before) && SameButLevels(before, after)
    ensures Proxies(before) == Proxies(after)
    ensures AllStakes(before) == AllStakes(after)
  {
  }

  ghost predicate SameProxies(before: Accounts, after: Accounts) {
    && before.Keys == after.Keys
    && forall a {:trigger after[a].proxy} {:trigger before[a].proxy} :: a in before ==>
         after[a].proxy == before[a].proxy
  }

  lemma {:induction false} CarrierSame(before: Accounts, after: Accounts, a: Name, hops: nat)
    requires WellFormed(before) && WellFormed(after) && SameProxies(before, after) && a in before
    ensures Carrier(before, a, hops) == Carrier(after, a, hops)
    decreases hops
  {
    if before[a].proxy != NOBODY && hops > 0 {
      CarrierSame(before, after, before[a].proxy, hops - 1);
    }
  }

  // ----- who may vote -----

  /** Whoever has declined to vote supports nobody, directly or by proxy, and nobody votes for too many. */
  ghost predicate Entitled(accounts: Accounts, records: Records) {
    forall a {:trigger Choices(records, a)} :: a in accounts ==>
      && accounts[a].votedFor <= MAX_WITNESS_VOTES
      && (!accounts[a].canVote ==> accounts[a].proxy == NOBODY && Choices(records, a) == {})
  }

  function Declined(accounts: Accounts): set<Name> {
    set a | a in accounts && !accounts[a].canVote
  }

  /** Proxy, right to vote and number of votes are as before. */
  ghost predicate SameRights(before: Accounts, after: Accounts) {
    && before.Keys == after.Keys
    && forall a {:trigger after[a]} :: a in before ==>
         && after[a].proxy == before[a].proxy && after[a].canVote == before[a].canVote
         && after[a].votedFor == before[a].votedFor
  }

  lemma SameRightsEntitled(before: Accounts, after: Accounts, records: Records)
    requires Entitled(before, records) && SameRights(before, after)
    ensures Entitled(after, records) && Declined(after) == Declined(before)
  {
    forall a | a in after ensures SameRight(before[a], after[a]) && Choices(records, a) == Choices(records, a) {
      assert after[a] == after[a];
    }
  }

  predicate SameRight(a: Account, b: Account) {
    a.proxy == b.proxy && a.canVote == b.canVote && a.votedFor == b.votedFor
  }

  lemma StakedRights(before: Accounts, after: Accounts, a: Name, change: int)
    requires a in before && SameButLevels(Staked(before, a, change), after)
    ensures SameRights(before, after)
  {
    forall b | b in before ensures SameRight(before[b], after[b]) {
      assert after[b] == Staked(before, a, change)[b].(proxied := after[b].proxied);
    }
  }

  /** The state of `x` after its proxy is set: its records are gone. */
  function Moved(accounts: Accounts, x: Name, target: Name, canVote: bool): Accounts
    requires x in accounts
  {
    accounts[x := accounts[x].(proxy := target, canVote := canVote, votedFor := 0)]
  }

  /** Levels changed before the move and after it. */
  lemma MovedLevels(before: Accounts, between: Accounts, after: Accounts, x: Name, target: Name, canVote: bool)
    requires x in before && SameButLevels(before, between) && SameButLevels(Moved(between, x, target, canVote), after)
    ensures SameButLevels(Moved(before, x, target, canVote), after)
  {
    var moved := Moved(before, x, target, canVote);
    forall a | a in moved ensures after[a] == moved[a].(proxied := after[a].proxied) {
      assert between[a] == before[a].(proxied := between[a].proxied);
      assert after[a] == Moved(between, x, target, canVote)[a].(proxied := after[a].proxied);
    }
  }

  lemma MovedEntitled(before: Accounts, after: Accounts, records: Records, x: Name, target: Name, canVote: bool)
    requires Entitled(before, records) && x in before && (!canVote ==> target == NOBODY)
    requires SameButLevels(Moved(before, x, target, canVote), after)
    ensures Entitled(after, Without(records, x))
    ensures Declined(after) == if canVote then Declined(before) - {x} else Declined(before) + {x}
  {
    forall a | a in after
      ensures after[a].votedFor <= MAX_WITNESS_VOTES
      ensures !after[a].canVote ==> after[a].proxy == NOBODY && Choices(Without(records, x), a) == {}
    {
      assert after[a] == Moved(before, x, target, canVote)[a].(proxied := after[a].proxied);
      ChoicesWithout(records, x, a);
      assert Choices(records, a) == Choices(records, a);
    }
  }

  lemma ChoicesWithout(records: Records, x: Name, a: Name)
    ensures Choices(Without(records, x), a) == if a == x then {} else Choices(records, a)
  {
  }

  /** An accepted ballot leaves the declined without records and everybody within the limit. */
  lemma VoteEntitled(accounts: Accounts, records: Records, a: Name, w: Name, approve: bool)
    requires Entitled(accounts, records) && a in accounts
    requires approve ==> accounts[a].canVote && accounts[a].votedFor < MAX_WITNESS_VOTES
    ensures var records' := if approve then records + {(a, w)} else records - {(a, w)};
            Entitled(Counted(accounts, a, approve), records')
    ensures Declined(Counted(accounts, a, approve)) == Declined(accounts)
  {
    var records' := if approve then records + {(a, w)} else records - {(a, w)};
    var after := Counted(accounts, a, approve);
    forall b | b in after
      ensures after[b].votedFor <= MAX_WITNESS_VOTES
      ensures !after[b].canVote ==> after[b].proxy == NOBODY && Choices(records', b) == {}
    {
      assert Choices(records, b) == Choices(records, b);
      assert b != a || !approve ==> Choices(records', b) <= Choices(records, b);
    }
  }

  lemma FreshEntitled(accounts: Accounts, records: Records, x: Name)
    requires Entitled(accounts, records) && x !in accounts
    ensures Entitled(accounts[x := FRESH], records) && Declined(accounts[x := FRESH]) == Declined(accounts)
  {
    forall a | a in accounts ensures Choices(records, a) == Choices(records, a) {
    }
  }

  /** The operation account_witness_proxy is accepted exactly in this case. */
  ghost predicate ProxyAllowed(accounts: Accounts, x: Name, target: Name) {
    && x in accounts && accounts[x].proxy != target && accounts[x].canVote
    && (target != NOBODY ==> target in accounts && ChainAllows(accounts, x, target))
  }

  /** The chain above the new proxy is short enough and does not come back to `x`. */
  ghost predicate ChainAllows(accounts: Accounts, x: Name, target: Name) {
    exists h {:trigger RootAfter(Proxies(accounts), target, h)} ::
      && 0 <= h && h + 2 <= MAX_PROXY_DEPTH
      && RootAfter(Proxies(accounts), target, h)
      && forall i {:trigger Hop(Proxies(accounts), target, i)} :: 0 <= i <= h ==> Hop(Proxies(accounts), target, i) != x
  }

  lemma {:induction false} HopRoot(p: map<Name, Name>, a: Name, h: nat, i: nat)
    requires RootAfter(p, a, h) && i <= h
    ensures RootAfter(p, Hop(p, a, i), h - i)
    decreases i
  {
    if i > 0 {
      HopRoot(p, p[a], h - 1, i - 1);
    }
  }

  /** Exactly the witnesses that `a` votes for gain `delta`. */
  ghost predicate Credited(before: map<Name, int>, after: map<Name, int>, records: Records, a: Name, delta: int) {
    && after.Keys == before.Keys
    && forall w :: w in after ==> after[w] == before[w] + if (a, w) in records then delta else 0
  }

  /** No witness that `a` votes for would pass the limit by gaining `delta`. */
  ghost predicate Fits(witnesses: map<Name, int>, records: Records, a: Name, delta: int, limit: int)
  {
    forall w :: w in witnesses && (a, w) in records ==> witnesses[w] + delta <= limit
  }

  /** Some witness has more stake behind it than the limit. */
  ghost predicate Overfull(accounts: Accounts, records: Records, names: set<Name>, detached: Name, limit: int) {
    exists w :: w in names && Sum(Backing(accounts, records, detached, w)) > limit
  }

  /** At a root nothing is owed above, and telling the witnesses settles the rest. */
  lemma OwingSettled(accounts: Accounts, records: Records, witnesses: map<Name, int>, witnesses': map<Name, int>,
                     detached: Name, a: Name, delta: seq<int>, depth: nat)
    requires WellFormed(accounts) && a in accounts && accounts[a].proxy == NOBODY
    requires |delta| == MAX_PROXY_DEPTH + 1 && depth <= MAX_PROXY_DEPTH
    requires Owing(accounts, records, witnesses, detached, a, delta, depth)
    requires Credited(witnesses, witnesses', records, a, Total(delta, depth))
    ensures LevelsAgree(accounts, detached)
    ensures VotesAgree(accounts, records, witnesses', detached)
  {
  }

  /** A refused update at a root means that the true backing is above the limit. */
  lemma RefusalMeansOverflow(accounts: Accounts, records: Records, witnesses: map<Name, int>, detached: Name, a: Name,
                             delta: seq<int>, depth: nat, limit: int)
    requires WellFormed(accounts) && a in accounts && accounts[a].proxy == NOBODY
    requires RecordsOk(accounts, records, witnesses)
    requires |delta| == MAX_PROXY_DEPTH + 1 && depth <= MAX_PROXY_DEPTH
    requires Owing(accounts, records, witnesses, detached, a, delta, depth)
    requires !Fits(witnesses, records, a, Total(delta, depth), limit)
    ensures LevelsAgree(accounts, detached)
    ensures Overfull(accounts, records, witnesses.Keys, detached, limit)
  {
    var w :| w in witnesses && (a, w) in records && witnesses[w] + Total(delta, depth) > limit;
    assert w in witnesses.Keys && Sum(Backing(accounts, records, detached, w)) > limit;
  }

  lemma NobodyVotes(accounts: Accounts, records: Records, witnesses: map<Name, int>, delta: int, limit: int)
    requires WellFormed(accounts) && RecordsOk(accounts, records, witnesses)
    ensures Fits(witnesses, records, NOBODY, delta, limit)
    ensures Credited(witnesses, witnesses, records, NOBODY, delta)
  {
    forall r | r in records ensures r.0 != NOBODY {
    }
    assert forall w :: (NOBODY, w) in records ==> (NOBODY, w).0 != NOBODY;
  }

  lemma SameButLevelsTransitive(a: Accounts, b: Accounts, c: Accounts)
    requires SameButLevels(a, b) && SameButLevels(b, c)
    ensures SameButLevels(a, c)
  {
  }

  /** Shape: everything about accounts and records except the cached sums. */
  ghost predicate ShapeOk(accounts: Accounts, records: Records, names: set<Name>) {
    && WellFormed(accounts) && Acyclic(accounts) && NonNegativeStake(accounts)
    && (forall r {:trigger r in records} :: r in records ==>
          r.0 in accounts && r.1 in names && accounts[r.0].proxy == NOBODY)
    && CountsOk(accounts, records)
  }

  lemma ShapeKept(before: Accounts, after: Accounts, records: Records, names: set<Name>)
    requires ShapeOk(before, records, names) && WellFormed(after) && SameButLevels(before, after)
    ensures ShapeOk(after, records, names)
    ensures Sum(AllStakes(after)) == Sum(AllStakes(before))
  {
    SameLevelsSameShape(before, after);
  }

  /** With the stored total at least the real one, no witness can be overfull. */
  lemma NeverOverfull(accounts: Accounts, records: Records, names: set<Name>, detached: Name, limit: int)
    requires ShapeOk(accounts, records, names) && LevelsAgree(accounts, detached)
    requires Sum(AllStakes(accounts)) <= limit
    ensures !Overfull(accounts, records, names, detached, limit)
  {
    var witnesses := map w | w in names :: 0;
    forall w | w in names ensures Sum(Backing(accounts, records, detached, w)) <= limit {
      BackingWithinTotal(accounts, records, witnesses, detached, w);
    }
  }

  lemma WalkKeepsShape(before: Accounts, after: Accounts, records: Records, names: set<Name>, detached: Name,
                       limit: int)
    requires ShapeOk(before, records, names) && WellFormed(after) && SameButLevels(before, after)
    requires LevelsAgree(after, detached) && Sum(AllStakes(before)) <= limit
    ensures ShapeOk(after, records, names) && Sum(AllStakes(after)) == Sum(AllStakes(before))
    ensures !Overfull(after, records, names, detached, limit)
  {
    ShapeKept(before, after, records, names);
    NeverOverfull(after, records, names, detached, limit);
  }

  lemma NoRecordsNoChoices(records: Records, x: Name)
    ensures var kept := Without(records, x);
            Choices(kept, x) == {} && forall a :: a != x ==> Choices(kept, a) == Choices(records, a)
  {
    var kept := Without(records, x);
    forall a | a != x ensures Choices(kept, a) == Choices(records, a) {
      forall w | w in Choices(records, a) ensures w in Choices(kept, a) {
        assert (a, w) in kept;
      }
    }
  }

  /** Shape after `x` gets a new proxy (or none) and loses its records. */
  lemma ShapeAfterMove(accounts: Accounts, records: Records, names: set<Name>, x: Name, moved: Account, h: nat)
    requires ShapeOk(accounts, records, names) && x in accounts
    requires moved.vests == accounts[x].vests && moved.proxied == accounts[x].proxied && moved.votedFor == 0
    requires moved.proxy == NOBODY || moved.proxy in accounts
    requires RootAfter(Proxies(accounts[x := moved]), x, h)
    ensures ShapeOk(accounts[x := moved], Without(records, x), names)
    ensures Sum(AllStakes(accounts[x := moved])) == Sum(AllStakes(accounts))
  {
    AcyclicAfter(accounts, x, moved, h);
    NoRecordsNoChoices(records, x);
    StakeSumAfter(accounts, x, moved);
  }

  /** A chain that avoids `x` gives `x` a root once `x` hangs below it. */
  lemma RootBelow(accounts: Accounts, x: Name, moved: Account, h: nat)
    requires WellFormed(accounts) && x in accounts && moved.proxy in accounts
    requires WellFormed(accounts[x := moved])
    requires RootAfter(Proxies(accounts), moved.proxy, h)
    requires forall i {:trigger Hop(Proxies(accounts), moved.proxy, i)} ::
               0 <= i <= h ==> Hop(Proxies(accounts), moved.proxy, i) != x
    ensures RootAfter(Proxies(accounts[x := moved]), x, h + 1)
  {
    WalkElsewhere(Proxies(accounts), Proxies(accounts[x := moved]), x, moved.proxy, h);
  }

  // ----- casting and withdrawing a vote -----

  lemma ChoiceAdded(records: Records, a: Name, w: Name)
    requires (a, w) !in records
    ensures Choices(records + {(a, w)}, a) == Choices(records, a) + {w} && w !in Choices(records, a)
    ensures forall b :: b != a ==> Choices(records + {(a, w)}, b) == Choices(records, b)
  {
    assert (a, w) in records + {(a, w)};
    forall v | v in Choices(records, a) ensures v in Choices(records + {(a, w)}, a) {
      assert (a, v) in records + {(a, w)};
    }
    forall b | b != a ensures Choices(records + {(a, w)}, b) == Choices(records, b) {
      forall v | v in Choices(records, b) ensures v in Choices(records + {(a, w)}, b) {
        assert (b, v) in records + {(a, w)};
      }
    }
  }

  /** One more record of `a` adds its weight to that witness and to no other. */
  lemma BackingWithRecord(accounts: Accounts, records: Records, a: Name, new_: Account, w: Name, v: Name)
    requires NOBODY !in accounts && a in accounts && (a, w) !in records && Weight(new_) == Weight(accounts[a])
    ensures Sum(Backing(accounts[a := new_], records + {(a, w)}, NOBODY, v))
         == Sum(Backing(accounts, records, NOBODY, v)) + if v == w then Weight(accounts[a]) else 0
  {
    var before, after :=
        Backing(accounts, records, NOBODY, v), Backing(accounts[a := new_], records + {(a, w)}, NOBODY, v);
    if v == w {
      SumUpdate(before, a, Weight(new_));
      assert after == before[a := Weight(new_)];
    } else {
      assert after == before;
    }
  }

  /** A changed vote counter is invisible to the forest. */
  lemma CounterIsNeutral(accounts: Accounts, a: Name, count: int)
    requires a in accounts
    ensures var accounts' := accounts[a := accounts[a].(votedFor := count)];
            && Proxies(accounts') == Proxies(accounts) && AllStakes(accounts') == AllStakes(accounts)
            && (LevelsAgree(accounts, NOBODY) ==> LevelsAgree(accounts', NOBODY))
  {
    var accounts' := accounts[a := accounts[a].(votedFor := count)];
    forall b, i | b in accounts' && 0 <= i < MAX_PROXY_DEPTH && LevelsAgree(accounts, NOBODY)
      ensures Level(accounts'[b], i + 1) == Sum(Below(accounts', NOBODY, b, i))
    {
      assert Below(accounts', NOBODY, b, i) == Below(accounts, NOBODY, b, i);
    }
  }

  /** `a` gains the record for `w`, or loses it again: the shape is the same question. */
  lemma ShapeAfterVote(accounts: Accounts, records: Records, names: set<Name>, a: Name, w: Name, accounts': Accounts)
    requires NOBODY !in accounts && a in accounts && (a, w) !in records && w in names && accounts[a].proxy == NOBODY
    requires accounts' == Counted(accounts, a, true)
    ensures ShapeOk(accounts, records, names) <==> ShapeOk(accounts', records + {(a, w)}, names)
  {
    CounterIsNeutral(accounts, a, accounts[a].votedFor + 1);
    CountsAfterVote(accounts, records, a, w, accounts');
    var more := records + {(a, w)};
    if ShapeOk(accounts', more, names) {
      assert forall b :: b in accounts ==> b in accounts' && accounts[b].vests == accounts'[b].vests;
      forall r | r in records ensures r.0 in accounts && r.1 in names && accounts[r.0].proxy == NOBODY {
        assert r in more;
      }
    }
  }

  lemma CountsAfterVote(accounts: Accounts, records: Records, a: Name, w: Name, accounts': Accounts)
    requires a in accounts && (a, w) !in records && accounts' == Counted(accounts, a, true)
    ensures CountsOk(accounts, records) <==> CountsOk(accounts', records + {(a, w)})
  {
    ChoiceAdded(records, a, w);
    var more := records + {(a, w)};
    assert accounts'[a].votedFor == |Choices(more, a)| <==> accounts[a].votedFor == |Choices(records, a)|;
    forall b | b in accounts && b != a
      ensures accounts'[b].votedFor == |Choices(more, b)| <==> accounts[b].votedFor == |Choices(records, b)|
    {
    }
  }

  /** Everything the second walk of setting a proxy relies on. */
  lemma AttachReady(accounts: Accounts, records: Records, witnesses: map<Name, int>, x: Name, target: Name, h: nat,
                    accounts': Accounts)
    requires ShapeOk(accounts, records, witnesses.Keys) && x in accounts && target in accounts
    requires LevelsAgree(accounts, x) && VotesAgree(accounts, records, witnesses, x)
    requires RootAfter(Proxies(accounts), target, h)
    requires forall i {:trigger Hop(Proxies(accounts), target, i)} :: 0 <= i <= h ==>
               Hop(Proxies(accounts), target, i) != x
    requires x in accounts' && accounts' == accounts[x := accounts'[x]]
    requires accounts'[x] == accounts[x].(proxy := target, votedFor := 0)
    ensures ShapeOk(accounts', Without(records, x), witnesses.Keys)
    ensures Sum(AllStakes(accounts')) == Sum(AllStakes(accounts)) && AllStakes(accounts') == AllStakes(accounts)
    ensures Owing(accounts', Without(records, x), witnesses, NOBODY, x, LevelsOf(accounts'[x]), 0)
    ensures RootAfter(Proxies(accounts'), x, h + 1)
    ensures LevelsOf(accounts'[x]) == LevelsOf(accounts[x])
  {
    var moved := accounts'[x];
    RootBelow(accounts, x, moved, h);
    ShapeAfterMove(accounts, records, witnesses.Keys, x, moved, h + 1);
    AttachOwes(accounts, records, witnesses, x, moved, Without(records, x));
    assert AllStakes(accounts') == AllStakes(accounts);
  }

  const FRESH := Account(0, [0, 0, 0, 0], NOBODY, true, 0)

  /** The shares that the routes hand to supporters of `w`, directly or by proxy. */
  ghost function CreditTo(accounts: Accounts, records: Records, routes: seq<Route>, amount: nat, w: Name): nat
    requires WellFormed(accounts) && RoutesTo(routes, accounts.Keys)
  {
    if routes == [] then 0
    else
      var r := routes[|routes| - 1];
      CreditTo(accounts, records, routes[..|routes| - 1], amount, w)
        + if r.autoVest && (Carrier(accounts, r.to, MAX_PROXY_DEPTH), w) in records
          then Deposit(amount, r.percent) else 0
  }

  /** No witness would pass the total while the credited shares are still held by their source. */
  ghost predicate RoomForCredits(accounts: Accounts, records: Records, witnesses: map<Name, int>, routes: seq<Route>,
                                 amount: nat, limit: int)
    requires WellFormed(accounts) && RoutesTo(routes, accounts.Keys)
  {
    forall w :: w in witnesses ==> witnesses[w] + CreditTo(accounts, records, routes, amount, w) <= limit
  }

  ghost predicate CreditsMade(accounts: Accounts, records: Records, before: map<Name, int>, after: map<Name, int>,
                              routes: seq<Route>, amount: nat)
    requires WellFormed(accounts) && RoutesTo(routes, accounts.Keys)
  {
    && before.Keys == after.Keys
    && forall w :: w in after ==> after[w] == before[w] + CreditTo(accounts, records, routes, amount, w)
  }

  /** Only stakes and levels have changed, and the stakes by what the routes hand out. */
  ghost predicate Received(before: Accounts, after: Accounts, routes: seq<Route>, amount: nat) {
    && SameProxies(before, after)
    && forall a {:trigger ReceivedBy(routes, amount, a)} :: a in before ==>
         after[a] == before[a].(proxied := after[a].proxied, vests := before[a].vests + ReceivedBy(routes, amount, a))
  }

  function Staked(accounts: Accounts, a: Name, change: int): Accounts
    requires a in accounts
  {
    accounts[a := accounts[a].(vests := accounts[a].vests + change)]
  }

  lemma WithinTotal(accounts: Accounts, records: Records, witnesses: map<Name, int>, limit: int)
    requires ShapeOk(accounts, records, witnesses.Keys) && LevelsAgree(accounts, NOBODY)
    requires VotesAgree(accounts, records, witnesses, NOBODY) && Sum(AllStakes(accounts)) <= limit
    ensures forall w :: w in witnesses ==> witnesses[w] <= limit
  {
    forall w | w in witnesses ensures witnesses[w] <= limit {
      BackingWithinTotal(accounts, records, witnesses, NOBODY, w);
    }
  }

  lemma {:induction false} CreditGrows(accounts: Accounts, records: Records, routes: seq<Route>, amount: nat, w: Name,
                                       i: nat)
    requires WellFormed(accounts) && RoutesTo(routes, accounts.Keys) && i <= |routes|
    ensures CreditTo(accounts, records, routes[..i], amount, w) <= CreditTo(accounts, records, routes, amount, w)
    decreases |routes|
  {
    if i == |routes| {
      assert routes[..i] == routes;
    } else {
      var shorter := routes[..|routes| - 1];
      CreditGrows(accounts, records, shorter, amount, w, i);
      assert shorter[..i] == routes[..i];
    }
  }

  /** A refused credit shows a witness for which the whole list of credits has no room. */
  lemma CreditRefused(accounts: Accounts, records: Records, before: map<Name, int>, votes: map<Name, int>,
                      routes: seq<Route>, amount: nat, i: nat, limit: int)
    requires WellFormed(accounts) && RoutesTo(routes, accounts.Keys) && i < |routes| && routes[i].autoVest
    requires CreditsMade(accounts, records, before, votes, routes[..i], amount)
    requires !Fits(votes, records, Carrier(accounts, routes[i].to, MAX_PROXY_DEPTH), Deposit(amount, routes[i].percent),
                   limit)
    ensures !RoomForCredits(accounts, records, before, routes, amount, limit)
  {
    var c := Carrier(accounts, routes[i].to, MAX_PROXY_DEPTH);
    var w :| w in votes && (c, w) in records && votes[w] + Deposit(amount, routes[i].percent) > limit;
    assert routes[..i + 1][..i] == routes[..i];
    CreditGrows(accounts, records, routes, amount, w, i + 1);
  }

  lemma ReceivedOneMore(accounts0: Accounts, before: Accounts, after: Accounts, routes: seq<Route>, amount: nat, i: nat,
                        deposit: nat)
    requires i < |routes| && routes[i].to in before
    requires deposit == if routes[i].autoVest then Deposit(amount, routes[i].percent) else 0
    requires Received(accounts0, before, routes[..i], amount)
    requires SameButLevels(Staked(before, routes[i].to, deposit), after)
    ensures Received(accounts0, after, routes[..i + 1], amount)
  {
    forall a | a in accounts0
      ensures after[a] == accounts0[a].(proxied := after[a].proxied,
                                        vests := accounts0[a].vests + ReceivedBy(routes[..i + 1], amount, a))
    {
      RouteStep(routes, amount, i, a);
    }
    assert SameProxies(before, after);
  }

  lemma CreditStep(accounts: Accounts, records: Records, before: map<Name, int>, votes: map<Name, int>,
                   after: map<Name, int>, routes: seq<Route>, amount: nat, i: nat, deposit: nat)
    requires WellFormed(accounts) && RoutesTo(routes, accounts.Keys) && i < |routes|
    requires deposit == if routes[i].autoVest then Deposit(amount, routes[i].percent) else 0
    requires CreditsMade(accounts, records, before, votes, routes[..i], amount)
    requires Credited(votes, after, records, Carrier(accounts, routes[i].to, MAX_PROXY_DEPTH), deposit)
    ensures CreditsMade(accounts, records, before, after, routes[..i + 1], amount)
  {
    assert routes[..i + 1][..i] == routes[..i];
  }

  /** Every target has its share, and the source is poorer by the whole amount. */
  ghost predicate Paid(before: Accounts, after: Accounts, routes: seq<Route>, amount: nat, from: Name) {
    && before.Keys == after.Keys
    && forall a {:trigger ReceivedBy(routes, amount, a)} :: a in after ==>
         after[a].vests == before[a].vests + ReceivedBy(routes, amount, a) - (if a == from then amount else 0)
  }

  lemma AfterDebit(accounts0: Accounts, accounts1: Accounts, accounts2: Accounts, routes: seq<Route>, amount: nat,
                   from: Name)
    requires from in accounts0 && Received(accounts0, accounts1, routes, amount)
    requires SameButLevels(Staked(accounts1, from, 0 - amount as int), accounts2)
    ensures SameRights(accounts0, accounts2)
    ensures Paid(accounts0, accounts2, routes, amount, from)
  {
    StakedRights(accounts1, accounts2, from, 0 - amount as int);
    forall a | a in accounts2 ensures SameRight(accounts0[a], accounts2[a]) {
      assert accounts1[a].vests == accounts0[a].vests + ReceivedBy(routes, amount, a);
      assert accounts2[a] == accounts2[a];
    }
    forall a | a in accounts2
      ensures accounts2[a].vests ==
                accounts0[a].vests + ReceivedBy(routes, amount, a) - (if a == from then amount else 0)
    {
      assert accounts1[a].vests == accounts0[a].vests + ReceivedBy(routes, amount, a);
    }
  }

  lemma FreshAccountAgrees(accounts: Accounts, records: Records, witnesses: map<Name, int>, x: Name)
    requires ShapeOk(accounts, records, witnesses.Keys) && LevelsAgree(accounts, NOBODY)
    requires VotesAgree(accounts, records, witnesses, NOBODY) && x != NOBODY && x !in accounts
    ensures ShapeOk(accounts[x := FRESH], records, witnesses.Keys) && LevelsAgree(accounts[x := FRESH], NOBODY)
    ensures VotesAgree(accounts[x := FRESH], records, witnesses, NOBODY)
    ensures Sum(AllStakes(accounts[x := FRESH])) == Sum(AllStakes(accounts))
  {
    hide LevelsAgree, VotesAgree, AllStakes, Acyclic, CountsOk;
    FreshKeepsShape(accounts, records, witnesses.Keys, x);
    FreshLevels(accounts, x);
    FreshVotes(accounts, records, witnesses, x);
    FreshStake(accounts, x);
  }

  lemma FreshKeepsShape(accounts: Accounts, records: Records, names: set<Name>, x: Name)
    requires ShapeOk(accounts, records, names) && x != NOBODY && x !in accounts
    ensures ShapeOk(accounts[x := FRESH], records, names)
  {
    var accounts' := accounts[x := FRESH];
    assert Proxies(accounts') == Proxies(accounts);
    assert RootAfter(Proxies(accounts'), x, 0);
    assert Choices(records, x) == {};
  }

  lemma FreshLevels(accounts: Accounts, x: Name)
    requires WellFormed(accounts) && LevelsAgree(accounts, NOBODY) && x != NOBODY && x !in accounts
    ensures LevelsAgree(accounts[x := FRESH], NOBODY)
  {
    hide Below;
    var accounts' := accounts[x := FRESH];
    forall b, i | b in accounts' && 0 <= i < MAX_PROXY_DEPTH
      ensures Level(accounts'[b], i + 1) == Sum(Below(accounts', NOBODY, b, i))
    {
      FreshHasNoClients(accounts, x, b, i);
    }
  }

  lemma FreshVotes(accounts: Accounts, records: Records, witnesses: map<Name, int>, x: Name)
    requires ShapeOk(accounts, records, witnesses.Keys) && VotesAgree(accounts, records, witnesses, NOBODY)
    requires x !in accounts
    ensures VotesAgree(accounts[x := FRESH], records, witnesses, NOBODY)
  {
    var accounts' := accounts[x := FRESH];
    forall w | w in witnesses ensures witnesses[w] == Sum(Backing(accounts', records, NOBODY, w)) {
      assert Backing(accounts', records, NOBODY, w) == Backing(accounts, records, NOBODY, w);
    }
  }

  lemma FreshStake(accounts: Accounts, x: Name)
    requires x !in accounts
    ensures Sum(AllStakes(accounts[x := FRESH])) == Sum(AllStakes(accounts))
  {
    SumUpdate(AllStakes(accounts), x, 0);
    assert AllStakes(accounts[x := FRESH]) == AllStakes(accounts)[x := 0];
  }

  lemma FreshHasNoClients(accounts: Accounts, x: Name, b: Name, i: nat)
    requires WellFormed(accounts) && x != NOBODY && x !in accounts && b != NOBODY
    ensures Below(accounts[x := FRESH], NOBODY, b, i) == if b == x then map[] else Below(accounts, NOBODY, b, i)
  {
  }

  /** Dropping the stake of `x` without a walk keeps the sums exactly when nothing depends on it. */
  lemma ClearingAgrees(accounts: Accounts, records: Records, witnesses: map<Name, int>, x: Name)
    requires ShapeOk(accounts, records, witnesses.Keys) && x in accounts
    requires LevelsAgree(accounts, NOBODY) && VotesAgree(accounts, records, witnesses, NOBODY)
    ensures var accounts' := Staked(accounts, x, -accounts[x].vests);
            && ShapeOk(accounts', records, witnesses.Keys)
            && Sum(AllStakes(accounts')) == Sum(AllStakes(accounts)) - accounts[x].vests
            && (LevelsAgree(accounts', NOBODY) && VotesAgree(accounts', records, witnesses, NOBODY) <==>
                accounts[x].vests == 0 || (accounts[x].proxy == NOBODY && Choices(records, x) == {}))
  {
    var accounts' := Staked(accounts, x, -accounts[x].vests);
    var new_ := accounts'[x];
    StakeReady(accounts, records, witnesses, x, -accounts[x].vests);
    if accounts[x].vests == 0 {
      assert accounts' == accounts;
    } else if accounts[x].proxy != NOBODY {
      var q := accounts[x].proxy;
      BelowAfterTelling(accounts, NOBODY, x, new_, q, 0);
      assert HasRoot(Proxies(accounts), x);
      var n: nat :| RootAfter(Proxies(accounts), x, n);
      ChainIsStraight(accounts, NOBODY, x, 0, n);
      assert q != x;
      assert Level(accounts'[q], 1) != Sum(Below(accounts', NOBODY, q, 0));
      assert !LevelsAgree(accounts', NOBODY);
    } else {
      forall b, i | b in accounts' && 0 <= i < MAX_PROXY_DEPTH
        ensures Level(accounts'[b], i + 1) == Sum(Below(accounts', NOBODY, b, i))
      {
        BelowAfterTelling(accounts, NOBODY, x, new_, b, i);
      }
      ClearedBacking(accounts, records, witnesses, x);
    }
  }

  lemma ClearedBacking(accounts: Accounts, records: Records, witnesses: map<Name, int>, x: Name)
    requires ShapeOk(accounts, records, witnesses.Keys) && x in accounts && accounts[x].vests != 0
    requires VotesAgree(accounts, records, witnesses, NOBODY)
    ensures VotesAgree(Staked(accounts, x, -accounts[x].vests), records, witnesses, NOBODY) <==>
              Choices(records, x) == {}
  {
    var accounts' := Staked(accounts, x, -accounts[x].vests);
    forall w | w in witnesses
      ensures witnesses[w] == Sum(Backing(accounts', records, NOBODY, w)) <==> (x, w) !in records
    {
      BackingAfterTelling(accounts, records, NOBODY, x, accounts'[x], w);
    }
    if Choices(records, x) == {} {
      forall w | w in witnesses ensures (x, w) !in records {
        assert w !in Choices(records, x);
      }
    } else {
      var w :| w in Choices(records, x);
      assert (x, w) in records;
      assert witnesses[w] != Sum(Backing(accounts', records, NOBODY, w));
    }
  }

  ghost function ChainLength(accounts: Accounts, x: Name, target: Name): (h: nat)
    requires ChainAllows(accounts, x, target)
    ensures RootAfter(Proxies(accounts), target, h) && h + 2 <= MAX_PROXY_DEPTH
    ensures forall i {:trigger Hop(Proxies(accounts), target, i)} :: 0 <= i <= h ==>
              Hop(Proxies(accounts), target, i) != x
  {
    var h: nat :| RootAfter(Proxies(accounts), target, h) && h + 2 <= MAX_PROXY_DEPTH
      && forall i {:trigger Hop(Proxies(accounts), target, i)} :: 0 <= i <= h ==>
           Hop(Proxies(accounts), target, i) != x;
    h
  }

  lemma StakesAfterMove(accounts: Accounts, x: Name, moved: Account)
    requires x in accounts && moved.vests == accounts[x].vests
    ensures AllStakes(accounts[x := moved]) == AllStakes(accounts)
  {
  }

  lemma NegatedTwice(a: Account, delta: seq<int>, back: seq<int>)
    requires delta == Negated(LevelsOf(a)) && back == Negated(delta)
    ensures back == LevelsOf(a)
  {
  }

  ghost predicate OnChain(p: map<Name, Name>, target: Name, k: nat, b: Name) {
    exists i :: 0 <= i <= k && b == Hop(p, target, i)
  }

  /** Meeting an account again can only be meeting `x`, for the forest has no loop of its own. */
  lemma RevisitMeansLoop(accounts: Accounts, x: Name, target: Name, h: nat, k: nat, next: Name)
    requires k < h && RootAfter(Proxies(accounts), target, h)
    requires next == Hop(Proxies(accounts), target, k + 1)
    requires next == x || OnChain(Proxies(accounts), target, k, next)
    ensures !ChainAllows(accounts, x, target)
  {
    var p := Proxies(accounts);
    if ChainAllows(accounts, x, target) {
      var g := ChainLength(accounts, x, target);
      RootAfterUnique(p, target, g, h);
      assert next != x;
      var i :| 0 <= i <= k && next == Hop(p, target, i);
      HopRoot(p, target, h, i);
      HopRoot(p, target, h, k + 1);
      assert false;
    }
  }

  lemma TooLongIsRefused(accounts: Accounts, x: Name, target: Name, h: nat)
    requires RootAfter(Proxies(accounts), target, h) && h + 2 > MAX_PROXY_DEPTH
    ensures !ChainAllows(accounts, x, target)
  {
    if ChainAllows(accounts, x, target) {
      var g: nat :| RootAfter(Proxies(accounts), target, g) && g + 2 <= MAX_PROXY_DEPTH;
      RootAfterUnique(Proxies(accounts), target, g, h);
      assert false;
    }
  }

  /** The vote evaluator accepts exactly these ballots. */
  predicate VoteAllowed(accounts: Accounts, records: Records, names: set<Name>, voter: Name, w: Name, approve: bool) {
    && voter in accounts && accounts[voter].proxy == NOBODY && w in names
    && (if approve
        then (voter, w) !in records && accounts[voter].canVote && accounts[voter].votedFor < MAX_WITNESS_VOTES
        else (voter, w) in records)
  }

  function Ballot(a: Account, approve: bool): int {
    if approve then Weight(a) else -Weight(a)
  }

  function Bumped(witnesses: map<Name, int>, w: Name, delta: int): map<Name, int>
    requires w in witnesses
  {
    witnesses[w := witnesses[w] + delta]
  }

  function Counted(accounts: Accounts, voter: Name, approve: bool): Accounts
    requires voter in accounts
  {
    accounts[voter := accounts[voter].(votedFor := accounts[voter].votedFor + if approve then 1 else -1)]
  }

  /** A ballot keeps every sum, and cannot lift a witness above the total. */
  lemma VoteAgrees(accounts: Accounts, records: Records, witnesses: map<Name, int>, a: Name, w: Name, approve: bool,
                   accounts': Accounts, records': Records, witnesses': map<Name, int>, limit: int)
    requires ShapeOk(accounts, records, witnesses.Keys) && LevelsAgree(accounts, NOBODY)
    requires VotesAgree(accounts, records, witnesses, NOBODY) && Sum(AllStakes(accounts)) <= limit
    requires VoteAllowed(accounts, records, witnesses.Keys, a, w, approve)
    requires accounts' == Counted(accounts, a, approve)
    requires records' == if approve then records + {(a, w)} else records - {(a, w)}
    requires witnesses' == Bumped(witnesses, w, Ballot(accounts[a], approve))
    ensures ShapeOk(accounts', records', witnesses'.Keys) && LevelsAgree(accounts', NOBODY)
    ensures VotesAgree(accounts', records', witnesses', NOBODY)
    ensures Sum(AllStakes(accounts')) == Sum(AllStakes(accounts))
    ensures witnesses'[w] <= limit
  {
    assert witnesses'.Keys == witnesses.Keys;
    CounterIsNeutral(accounts, a, accounts'[a].votedFor);
    if approve {
      ShapeAfterVote(accounts, records, witnesses.Keys, a, w, accounts');
    } else {
      assert records' + {(a, w)} == records;
      assert accounts == Counted(accounts', a, true);
      ShapeAfterVote(accounts', records', witnesses.Keys, a, w, accounts);
    }
    forall v | v in witnesses' ensures witnesses'[v] == Sum(Backing(accounts', records', NOBODY, v)) {
      if approve {
        BackingWithRecord(accounts, records, a, accounts'[a], w, v);
      } else {
        BackingWithRecord(accounts', records', a, accounts[a], w, v);
      }
    }
    BackingWithinTotal(accounts', records', witnesses', NOBODY, w);
  }

  lemma TotalOfOne(delta: int, depth: nat)
    requires depth <= MAX_PROXY_DEPTH
    ensures Total([delta, 0, 0, 0, 0], depth) == delta
  {
    var s := [delta, 0, 0, 0, 0];
    assert s[..5] == s;
    assert s[..5][..4] == s[..4] && s[..4][..3] == s[..3] && s[..3][..2] == s[..2];
    assert s[..2][..1] == s[..1] && s[..1][..0] == [];
    assert SeqSum(s[..1]) == delta;
    assert SeqSum(s[..2]) == delta;
    assert SeqSum(s[..3]) == delta;
    assert SeqSum(s[..4]) == delta;
  }

  // ----- limits of the claims -----

  const ALICE := Account(100, [0, 0, 0, 0], NOBODY, true, 1)

  const BOB := Account(0, [0, 0, 0, 0], NOBODY, true, 1)

  const PAIR: Accounts := map["alice" := ALICE, "bob" := BOB]

  const BOTH_VOTE: Records := {("alice", "w"), ("bob", "w")}

  lemma HundredAndNothing()
    ensures Sum(map["alice" := 100, "bob" := 0]) == 100
  {
    var none: map<Name, int> := map[];
    var one: map<Name, int> := map["alice" := 100];
    SumUpdate(none, "alice", 100);
    SumUpdate(one, "bob", 0);
    assert none["alice" := 100] == one;
    assert one["bob" := 0] == map["alice" := 100, "bob" := 0];
  }

  lemma PairStakes()
    ensures Sum(AllStakes(PAIR)) == 100
  {
    HundredAndNothing();
    assert AllStakes(PAIR) == map["alice" := 100, "bob" := 0];
  }

  lemma PairBacking()
    ensures Sum(Backing(PAIR, BOTH_VOTE, NOBODY, "w")) == 100
  {
    HundredAndNothing();
    assert Weight(ALICE) == 100 && Weight(BOB) == 0;
    assert Backing(PAIR, BOTH_VOTE, NOBODY, "w") == map["alice" := 100, "bob" := 0];
  }

  lemma PairLevels()
    ensures LevelsAgree(PAIR, NOBODY)
  {
    forall b, i | b in PAIR && 0 <= i < MAX_PROXY_DEPTH
      ensures Level(PAIR[b], i + 1) == Sum(Below(PAIR, NOBODY, b, i))
    {
      assert Below(PAIR, NOBODY, b, i) == map[];
    }
  }

  /** Two sound-looking claims fail in this agreeing state: a witness can hold all the stake, so
      "strictly less than the total" is too strong, and a routed power-down can be refused
      although the state after it would be fine. */
  lemma AllStakeBehindOneWitness()
    ensures ShapeOk(PAIR, BOTH_VOTE, {"w"}) && LevelsAgree(PAIR, NOBODY) && Entitled(PAIR, BOTH_VOTE)
    ensures VotesAgree(PAIR, BOTH_VOTE, map["w" := 100], NOBODY)
    ensures Sum(AllStakes(PAIR)) == 100
    ensures RoutesTo([Route("bob", HUNDRED_PERCENT, true)], PAIR.Keys)
    ensures !RoomForCredits(PAIR, BOTH_VOTE, map["w" := 100], [Route("bob", HUNDRED_PERCENT, true)], 100, 100)
  {
    hide LevelsAgree, AllStakes, Backing, CreditTo;
    PairStakes();
    PairBacking();
    PairLevels();
    PairShape();
    PairCredit();
  }

  lemma PairShape()
    ensures ShapeOk(PAIR, BOTH_VOTE, {"w"})
  {
    forall a | a in PAIR ensures RootAfter(Proxies(PAIR), a, 0) && Choices(BOTH_VOTE, a) == {"w"} {
    }
  }

  lemma PairCredit()
    ensures RoutesTo([Route("bob", HUNDRED_PERCENT, true)], PAIR.Keys)
    ensures CreditTo(PAIR, BOTH_VOTE, [Route("bob", HUNDRED_PERCENT, true)], 100, "w") == 100
  {
    var routes := [Route("bob", HUNDRED_PERCENT, true)];
    assert RoutesTo(routes, PAIR.Keys);
    assert routes[..0] == [];
    assert Carrier(PAIR, "bob", MAX_PROXY_DEPTH) == "bob";
    assert Deposit(100, HUNDRED_PERCENT) == 100;
  }

  /** A witness stays strictly below the total exactly when some stake is tallied elsewhere. */
  lemma StrictlyBelowTotal(accounts: Accounts, records: Records, witnesses: map<Name, int>, w: Name)
    requires WellFormed(accounts) && LevelsAgree(accounts, NOBODY) && NonNegativeStake(accounts)
    requires RecordsOk(accounts, records, witnesses)
    ensures Sum(Backing(accounts, records, NOBODY, w)) < Sum(AllStakes(accounts)) <==>
            exists a :: a in accounts && (a, w) !in records && Tally(accounts, NOBODY)[a] > 0
  {
    var others := Elsewhere(accounts, records, w);
    SplitTally(accounts, records, witnesses, w);
    if a :| a in accounts && (a, w) !in records && Tally(accounts, NOBODY)[a] > 0 {
      SumAtLeast(others, a);
    } else {
      SumOfZeros(others);
    }
  }

  /** What is tallied at the accounts that do not vote for `w`. */
  ghost function Elsewhere(accounts: Accounts, records: Records, w: Name): map<Name, int> {
    map a | a in accounts && (a, w) !in records :: Tally(accounts, NOBODY)[a]
  }

  lemma SplitTally(accounts: Accounts, records: Records, witnesses: map<Name, int>, w: Name)
    requires WellFormed(accounts) && LevelsAgree(accounts, NOBODY) && NonNegativeStake(accounts)
    requires RecordsOk(accounts, records, witnesses)
    ensures forall a :: a in accounts ==> Tally(accounts, NOBODY)[a] >= 0
    ensures Sum(AllStakes(accounts)) ==
              Sum(Backing(accounts, records, NOBODY, w)) + Sum(Elsewhere(accounts, records, w))
  {
    var backing, others, tally :=
        Backing(accounts, records, NOBODY, w), Elsewhere(accounts, records, w), Tally(accounts, NOBODY);
    TallyIsTotalStake(accounts, NOBODY);
    forall a | a in accounts ensures tally[a] >= 0 {
      WeightsNonNegative(accounts, NOBODY, a);
    }
    SumUnion(backing, others);
    forall a | a in backing ensures backing[a] == tally[a] {
      assert (a, w) in records;
    }
    assert backing + others == tally;
  }
}
