/** The proxy forest of witness voting, on values.
    An account hands its stake to its proxy; `proxied[i]` caches the stake that arrives
    from exactly i + 1 hops below, and stake further than MAX_PROXY_DEPTH hops is lost. */
module ProxyForest {
  import opened Common
  import opened MapSums

  /** STEEMIT_PROXY_TO_SELF_ACCOUNT: the empty name means "no proxy". */
  const NOBODY: Name := ""

  /** STEEMIT_MAX_PROXY_RECURSION_DEPTH */
  const MAX_PROXY_DEPTH: nat := 4

  type Levels = s: seq<int> | |s| == MAX_PROXY_DEPTH witness [0, 0, 0, 0]

  datatype Account = Account(
    vests: int,          // vesting_shares
    proxied: Levels,     // proxied_vsf_votes
    proxy: Name,
    canVote: bool,
    votedFor: int)       // witnesses_voted_for

  type Accounts = map<Name, Account>

  /** Stake of `a` seen at distance i: its own at 0, the cached levels above that. */
  function Level(a: Account, i: nat): int {
    if i == 0 then a.vests else if i <= MAX_PROXY_DEPTH then a.proxied[i - 1] else 0
  }

  /** witness_vote_weight */
  function Weight(a: Account): int {
    Level(a, 0) + Level(a, 1) + Level(a, 2) + Level(a, 3) + Level(a, 4)
  }

  ghost predicate WellFormed(accounts: Accounts) {
    && NOBODY !in accounts
    && (forall a {:trigger accounts[a].proxy} ::
          a in accounts ==> accounts[a].proxy == NOBODY || accounts[a].proxy in accounts)
  }

  ghost function Proxies(accounts: Accounts): map<Name, Name> {
    map a | a in accounts && accounts[a].proxy != NOBODY :: accounts[a].proxy
  }

  /** Walking up from `a` reaches an account without proxy after exactly n hops. */
  ghost predicate RootAfter(proxies: map<Name, Name>, a: Name, n: nat)
    decreases n
  {
    if n == 0 then a !in proxies else a in proxies && RootAfter(proxies, proxies[a], n - 1)
  }

  ghost predicate HasRoot(proxies: map<Name, Name>, a: Name) {
    exists n :: RootAfter(proxies, a, n)
  }

  ghost predicate Acyclic(accounts: Accounts) {
    forall a {:trigger HasRoot(Proxies(accounts), a)} :: a in accounts ==> HasRoot(Proxies(accounts), a)
  }

  // ----- the caches, stated one hop at a time -----

  /** The stake at distance i of the accounts whose proxy is `a`, leaving out `detached`. */
  ghost function Below(accounts: Accounts, detached: Name, a: Name, i: nat): map<Name, int> {
    map c | c in accounts && c != detached && accounts[c].proxy == a :: Level(accounts[c], i)
  }

  /** Every cached level is the sum of the level below over the direct clients;
      `detached` (NOBODY for none) is treated as a client of nobody. */
  ghost predicate LevelsAgree(accounts: Accounts, detached: Name) {
    forall a, i :: a in accounts && 0 <= i < MAX_PROXY_DEPTH ==>
      Level(accounts[a], i + 1) == Sum(Below(accounts, detached, a, i))
  }

  // ----- the caches, stated by whole paths -----

  /** The account i hops above `a`, or NOBODY. */
  ghost function Hop(proxies: map<Name, Name>, a: Name, i: nat): Name
    decreases i
  {
    if i == 0 then a
    else if a in proxies then Hop(proxies, proxies[a], i - 1)
    else NOBODY
  }

  /** The stake of every account that is exactly i hops below `a`. */
  ghost function StakeAt(accounts: Accounts, a: Name, i: nat): map<Name, int> {
    map b | b in accounts && Hop(Proxies(accounts), b, i) == a :: accounts[b].vests
  }

  lemma {:induction false} HopThroughLast(proxies: map<Name, Name>, b: Name, i: nat)
    requires NOBODY !in proxies
    ensures var c := Hop(proxies, b, i);
            Hop(proxies, b, i + 1) == if c in proxies then proxies[c] else NOBODY
    decreases i
  {
    if i == 0 {
    } else if b in proxies {
      HopThroughLast(proxies, proxies[b], i - 1);
    }
  }

  /** The one-hop statement means what it should: level i of `a` is the total stake
      of the accounts exactly i hops below it. */
  lemma {:induction false} LevelIsStakeAtDistance(accounts: Accounts, a: Name, i: nat)
    requires WellFormed(accounts) && LevelsAgree(accounts, NOBODY)
    requires a in accounts && i <= MAX_PROXY_DEPTH
    ensures Level(accounts[a], i) == Sum(StakeAt(accounts, a, i))
    decreases i
  {
    if i == 0 {
      OwnStake(accounts, a);
    } else {
      forall c | c in accounts ensures Level(accounts[c], i - 1) == Sum(StakeAt(accounts, c, i - 1)) {
        LevelIsStakeAtDistance(accounts, c, i - 1);
      }
      RegroupByLastHop(accounts, a, i - 1);
      assert Below(accounts, NOBODY, a, i - 1) == ClientStakes(accounts, a, i - 1);
    }
  }

  lemma OwnStake(accounts: Accounts, a: Name)
    requires a in accounts
    ensures Sum(StakeAt(accounts, a, 0)) == accounts[a].vests
  {
    assert StakeAt(accounts, a, 0) == map[a := accounts[a].vests];
    var none: map<Name, int> := map[];
    SumUpdate(none, a, accounts[a].vests);
    assert none[a := accounts[a].vests] == map[a := accounts[a].vests];
  }

  ghost function Clients(accounts: Accounts, a: Name): set<Name> {
    set c | c in accounts && accounts[c].proxy == a
  }

  ghost function ClientStakes(accounts: Accounts, a: Name, i: nat): map<Name, int> {
    map c | c in Clients(accounts, a) :: Sum(StakeAt(accounts, c, i))
  }

  ghost function AllStakes(accounts: Accounts): map<Name, int> {
    map b | b in accounts :: accounts[b].vests
  }

  ghost function Hops(accounts: Accounts, i: nat): map<Name, Name> {
    map b | b in accounts :: Hop(Proxies(accounts), b, i)
  }

  lemma RegroupByLastHop(accounts: Accounts, a: Name, i: nat)
    requires WellFormed(accounts) && a in accounts
    ensures Sum(StakeAt(accounts, a, i + 1)) == Sum(ClientStakes(accounts, a, i))
  {
    var m, key, groups := AllStakes(accounts), Hops(accounts, i), Clients(accounts, a);
    SumByGroup(m, key, groups);
    forall c | c in groups ensures Group(m, key, c) == StakeAt(accounts, c, i) {
      GroupIsStakeAt(accounts, c, i);
    }
    assert GroupSums(m, key, groups) == ClientStakes(accounts, a, i);
    MembersAreStakeAbove(accounts, a, i);
  }

  lemma GroupIsStakeAt(accounts: Accounts, c: Name, i: nat)
    ensures Group(AllStakes(accounts), Hops(accounts, i), c) == StakeAt(accounts, c, i)
  {
  }

  lemma MembersAreStakeAbove(accounts: Accounts, a: Name, i: nat)
    requires WellFormed(accounts) && a in accounts
    ensures Members(AllStakes(accounts), Hops(accounts, i), Clients(accounts, a)) == StakeAt(accounts, a, i + 1)
  {
    forall b | b in accounts
      ensures Hop(Proxies(accounts), b, i + 1) == a <==> Hop(Proxies(accounts), b, i) in Clients(accounts, a)
    {
      HopThroughLast(Proxies(accounts), b, i);
    }
  }

  // ----- no stake is counted twice or forgotten -----

  ghost predicate Rooted(accounts: Accounts, detached: Name, a: Name)
    requires a in accounts
  {
    accounts[a].proxy == NOBODY || a == detached
  }

  /** What `a` contributes to the tally: its whole weight if its votes are its own to cast,
      otherwise only the stake that has reached the last level and goes no further. */
  ghost function Tally(accounts: Accounts, detached: Name): map<Name, int> {
    map a | a in accounts ::
      if Rooted(accounts, detached, a) then Weight(accounts[a]) else Level(accounts[a], MAX_PROXY_DEPTH)
  }

  ghost function AtLevel(accounts: Accounts, i: nat): map<Name, int> {
    map a | a in accounts :: Level(accounts[a], i)
  }

  ghost function ProxiedAtLevel(accounts: Accounts, detached: Name, i: nat): map<Name, int> {
    map a | a in accounts && !Rooted(accounts, detached, a) :: Level(accounts[a], i)
  }

  /** One level up, exactly the stake of the proxied accounts reappears. */
  lemma LevelUp(accounts: Accounts, detached: Name, i: nat)
    requires WellFormed(accounts) && LevelsAgree(accounts, detached) && i < MAX_PROXY_DEPTH
    ensures Sum(AtLevel(accounts, i + 1)) == Sum(ProxiedAtLevel(accounts, detached, i))
  {
    hide LevelsAgree, WellFormed, ProxiedAtLevel, Proxies, AtLevel, GroupSums, Members;
    SumByGroup(ProxiedAtLevel(accounts, detached, i), Proxies(accounts), accounts.Keys);
    GroupsAreLevels(accounts, detached, i);
    ProxiedAreMembers(accounts, detached, i);
  }

  lemma GroupsAreLevels(accounts: Accounts, detached: Name, i: nat)
    requires WellFormed(accounts) && LevelsAgree(accounts, detached) && i < MAX_PROXY_DEPTH
    ensures GroupSums(ProxiedAtLevel(accounts, detached, i), Proxies(accounts), accounts.Keys) ==
              AtLevel(accounts, i + 1)
  {
    hide Group, ProxiedAtLevel, Proxies, Below;
    var m, key := ProxiedAtLevel(accounts, detached, i), Proxies(accounts);
    forall a | a in accounts ensures Sum(Group(m, key, a)) == Level(accounts[a], i + 1) {
      GroupIsBelow(accounts, detached, a, i);
    }
  }

  lemma ProxiedAreMembers(accounts: Accounts, detached: Name, i: nat)
    requires WellFormed(accounts)
    ensures Members(ProxiedAtLevel(accounts, detached, i), Proxies(accounts), accounts.Keys) ==
              ProxiedAtLevel(accounts, detached, i)
  {
  }

  lemma GroupIsBelow(accounts: Accounts, detached: Name, a: Name, i: nat)
    requires WellFormed(accounts) && i < MAX_PROXY_DEPTH && a in accounts
    ensures Group(ProxiedAtLevel(accounts, detached, i), Proxies(accounts), a)
         == Below(accounts, detached, a, i)
  {
  }

  /** The levels of the accounts that cast their own votes, plus what went up from the others. */
  ghost function Partial(accounts: Accounts, detached: Name, i: nat): map<Name, int> {
    map a | a in accounts ::
      if Rooted(accounts, detached, a) then LevelsUpTo(accounts[a], i) else Level(accounts[a], i)
  }

  ghost function LevelsUpTo(a: Account, i: nat): int {
    if i == 0 then Level(a, 0) else LevelsUpTo(a, i - 1) + Level(a, i)
  }

  lemma {:induction false} PartialIsTotal(accounts: Accounts, detached: Name, i: nat)
    requires WellFormed(accounts) && LevelsAgree(accounts, detached) && i <= MAX_PROXY_DEPTH
    ensures Sum(Partial(accounts, detached, i)) == Sum(AllStakes(accounts))
  {
    if i == 0 {
      assert Partial(accounts, detached, 0) == AllStakes(accounts);
    } else {
      PartialIsTotal(accounts, detached, i - 1);
      LevelUp(accounts, detached, i - 1);
      PartialStep(accounts, detached, i - 1);
    }
  }

  ghost function RootedPart(accounts: Accounts, detached: Name, i: nat): map<Name, int> {
    map a | a in accounts && Rooted(accounts, detached, a) :: LevelsUpTo(accounts[a], i)
  }

  ghost function RootedPartAbove(accounts: Accounts, detached: Name, i: nat): map<Name, int> {
    map a | a in accounts :: if Rooted(accounts, detached, a) then LevelsUpTo(accounts[a], i) else 0
  }

  lemma PartialStep(accounts: Accounts, detached: Name, i: nat)
    requires WellFormed(accounts) && i < MAX_PROXY_DEPTH
    ensures Sum(Partial(accounts, detached, i + 1))
         == Sum(Partial(accounts, detached, i)) + Sum(AtLevel(accounts, i + 1))
          - Sum(ProxiedAtLevel(accounts, detached, i))
  {
    var rooted, above := RootedPart(accounts, detached, i), RootedPartAbove(accounts, detached, i);
    var proxied := ProxiedAtLevel(accounts, detached, i);
    SumUnion(rooted, proxied);
    assert rooted + proxied == Partial(accounts, detached, i);
    SumAdd(above, AtLevel(accounts, i + 1), Partial(accounts, detached, i + 1));
    PadWithZeros(rooted, above);
  }

  lemma {:induction false} PadWithZeros(part: map<Name, int>, whole: map<Name, int>)
    requires part.Keys <= whole.Keys
    requires forall k :: k in whole ==> whole[k] == if k in part then part[k] else 0
    ensures Sum(part) == Sum(whole)
    decreases |whole|
  {
    if whole == map[] {
      assert part == map[];
    } else {
      var k :| k in whole;
      SumRemove(whole, k);
      if k in part {
        SumRemove(part, k);
      } else {
        assert part - {k} == part;
      }
      PadWithZeros(part - {k}, whole - {k});
    }
  }

  /** However long the proxy chains are, the tally is exactly the stake in existence. */
  lemma TallyIsTotalStake(accounts: Accounts, detached: Name)
    requires WellFormed(accounts) && LevelsAgree(accounts, detached)
    ensures Sum(Tally(accounts, detached)) == Sum(AllStakes(accounts))
  {
    PartialIsTotal(accounts, detached, MAX_PROXY_DEPTH);
    forall a | a in accounts ensures LevelsUpTo(accounts[a], 4) == Weight(accounts[a]) {
      UnrollLevels(accounts[a]);
    }
    assert Partial(accounts, detached, MAX_PROXY_DEPTH) == Tally(accounts, detached);
  }

  lemma UnrollLevels(a: Account)
    ensures LevelsUpTo(a, 4) == Weight(a)
  {
    assert LevelsUpTo(a, 1) == Level(a, 0) + Level(a, 1);
    assert LevelsUpTo(a, 2) == LevelsUpTo(a, 1) + Level(a, 2);
    assert LevelsUpTo(a, 3) == LevelsUpTo(a, 2) + Level(a, 3);
  }
}
