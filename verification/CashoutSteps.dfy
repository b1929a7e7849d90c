/** Paying out a post, on values: the claim on the reward fund, and its way to delegators, curators, beneficiaries
    and the author. Whatever leaves the fund arrives somewhere in the ledger. */
module CashoutSteps {
  import opened Arith
  import opened Common
  import opened Market
  import opened LedgerState
  import opened LedgerSteps
  import opened Curation
  import opened CurationPayout

  /** STEEMIT_MIN_PAYOUT_SBD: 0.020 dollars */
  const MIN_PAYOUT: int := 20

  // ----- the claim -----

  /** to_sbd and to_steem: nothing has a value while there is no feed. */
  function ToSbd(feed: Feed, steem: int): int
    requires FeedOk(feed)
  {
    if feed.NoFeed? then 0 else Convert(steem, feed.sbd, feed.steem)
  }

  function ToSteem(feed: Feed, sbd: int): int
    requires FeedOk(feed)
  {
    if feed.NoFeed? then 0 else Convert(sbd, feed.steem, feed.sbd)
  }

  /** claim_rshare_reward: the post's share of the fund, nothing below the minimum, at most the maximum. */
  function Reward(fund: nat, shares: nat, weight: nat, totalShares: nat, feed: Feed, maxPayout: nat): (r: nat)
    requires 0 < totalShares && shares <= totalShares && weight <= HUNDRED_PERCENT && FeedOk(feed)
    ensures r <= fund
    ensures r > 0 ==> ToSbd(feed, fund * (shares * weight / HUNDRED_PERCENT) / totalShares) >= MIN_PAYOUT
    ensures r <= ToSteem(feed, maxPayout)
  {
    var weighted := shares * weight / HUNDRED_PERCENT;
    MulMono(weight, HUNDRED_PERCENT, shares);
    WithinFund(fund, weighted, totalShares);
    PriceNonNegative(feed, maxPayout);
    var share := fund * weighted / totalShares;
    var payout := if ToSbd(feed, share) < MIN_PAYOUT then 0 else share;
    if payout <= ToSteem(feed, maxPayout) then payout else ToSteem(feed, maxPayout)
  }

  /** Nothing when the post's share of the fund is worth less than the minimum; otherwise the share of the fund in
      proportion to the weighted reward shares, rounded down twice, or the accepted maximum if that is less. */
  lemma RewardIsShare(fund: nat, shares: nat, weight: nat, totalShares: nat, feed: Feed, maxPayout: nat, weighted: int,
                      share: int)
    requires 0 < totalShares && shares <= totalShares && weight <= HUNDRED_PERCENT && FeedOk(feed)
    requires IsFloor(weighted, shares * weight, HUNDRED_PERCENT) && IsFloor(share, fund * weighted, totalShares)
    ensures var r, cap := Reward(fund, shares, weight, totalShares, feed, maxPayout), ToSteem(feed, maxPayout);
            if ToSbd(feed, share) < MIN_PAYOUT then r == 0 else r == if share <= cap then share else cap
  {
    FloorUnique(weighted, shares * weight, HUNDRED_PERCENT);
    FloorUnique(share, fund * weighted, totalShares);
    PriceNonNegative(feed, maxPayout);
  }

  lemma WithinFund(fund: nat, part: nat, total: nat)
    requires part <= total && total > 0
    ensures 0 <= fund * part / total <= fund
  {
    MulMono(part, total, fund);
    FloorAtLeast(fund * part, total, 0);
    FloorAtLeast(fund * part, total, fund + 1);
    assert (fund + 1) * total == fund * total + total;
  }

  lemma PriceNonNegative(feed: Feed, sbd: nat)
    requires FeedOk(feed)
    ensures ToSteem(feed, sbd) >= 0
  {
    if feed.Feed? {
      ConvertNonNegative(sbd, feed.steem, feed.sbd);
    }
  }

  // ----- delegators -----

  /** What one delegator gets of a curator's claim; rates above 100% are skipped. */
  function Cut(share: Share, claim: nat): nat {
    if share.percent > HUNDRED_PERCENT then 0 else claim * share.percent / HUNDRED_PERCENT
  }

  function Cuts(shares: seq<Share>, n: nat, claim: nat): nat
    requires n <= |shares|
  {
    if n == 0 then 0 else Cuts(shares, n - 1, claim) + Cut(shares[n - 1], claim)
  }

  function Percents(shares: seq<Share>, n: nat): nat
    requires n <= |shares|
  {
    if n == 0 then 0
    else Percents(shares, n - 1) + if shares[n - 1].percent > HUNDRED_PERCENT then 0 else shares[n - 1].percent
  }

  lemma {:induction false} CutsWithin(shares: seq<Share>, n: nat, claim: nat)
    requires n <= |shares|
    ensures HUNDRED_PERCENT * Cuts(shares, n, claim) <= claim * Percents(shares, n)
  {
    if n > 0 {
      CutsWithin(shares, n - 1, claim);
      var percent := shares[n - 1].percent;
      if percent <= HUNDRED_PERCENT {
        SharesAdd(claim, Cut(shares[n - 1], claim), percent, Cuts(shares, n - 1, claim),
                  Percents(shares, n - 1), HUNDRED_PERCENT);
      }
    }
  }

  /** Rates that add up to at most 100% never use more than there is to share. */
  predicate Sharing(shares: seq<Share>) {
    Percents(shares, |shares|) <= HUNDRED_PERCENT
  }

  lemma CutsAtMost(shares: seq<Share>, claim: nat)
    requires Sharing(shares)
    ensures Cuts(shares, |shares|, claim) <= claim
  {
    CutsWithin(shares, |shares|, claim);
    MulMono(Percents(shares, |shares|), HUNDRED_PERCENT, claim);
  }

  predicate Known(shares: seq<Share>, names: set<Name>) {
    forall i {:trigger shares[i]} :: 0 <= i < |shares| ==> shares[i].account in names
  }

  /** The accounts of the first n shares have their cuts vested. */
  function SharesVested(s: State, shares: seq<Share>, n: nat, claim: nat): (r: State)
    requires InOrder(s) && n <= |shares| && Known(shares, s.holders.Keys)
    ensures InOrder(r) && r.holders.Keys == s.holders.Keys && SameRecords(s, r)
    ensures GapsMoved(s, r, 0 - Cuts(shares, n, claim), 0, 0)
    decreases n
  {
    hide SteemGap, SbdGap, VestGap, InOrder, VestingCreated;
    if n == 0 then s
    else VestingCreated(SharesVested(s, shares, n - 1, claim), shares[n - 1].account, Cut(shares[n - 1], claim))
  }

  /** Vesting nothing changes nothing, so a payment of zero may be skipped. */
  lemma VestingNothing(s: State, a: Name)
    requires InOrder(s) && a in s.holders
    ensures VestingCreated(s, a, 0) == s
  {
    assert SharesFor(0, s.totalVests, s.vestFund) == 0;
    assert s.holders[a := s.holders[a]] == s.holders;
  }

  // ----- curators -----

  predicate Payable(v: Vote, names: set<Name>) {
    v.voter in names && Known(v.rates, names) && Sharing(v.rates)
  }

  /** pay_curator: delegators first, the voter gets the rest. */
  function CuratorPaid(s: State, p: Payment): (r: State)
    requires InOrder(s) && Payable(p.vote, s.holders.Keys)
    ensures InOrder(r) && r.holders.Keys == s.holders.Keys && SameRecords(s, r)
    ensures GapsMoved(s, r, 0 - p.amount, 0, 0)
  {
    hide SteemGap, SbdGap, VestGap, InOrder, VestingCreated, SharesVested, Cuts;
    var rates := p.vote.rates;
    CutsAtMost(rates, p.amount);
    VestingCreated(SharesVested(s, rates, |rates|, p.amount), p.vote.voter, p.amount - Cuts(rates, |rates|, p.amount))
  }

  ghost predicate AllPayable(payments: seq<Payment>, names: set<Name>) {
    forall i {:trigger payments[i]} :: 0 <= i < |payments| ==> Payable(payments[i].vote, names)
  }

  function CuratorsPaid(s: State, payments: seq<Payment>): (r: State)
    requires InOrder(s) && AllPayable(payments, s.holders.Keys)
    ensures InOrder(r) && r.holders.Keys == s.holders.Keys && SameRecords(s, r)
    ensures GapsMoved(s, r, 0 - Amounts(payments), 0, 0)
  {
    hide SteemGap, SbdGap, VestGap, InOrder, CuratorPaid, Payable;
    if payments == [] then s
    else
      var last := payments[|payments| - 1];
      CuratorPaid(CuratorsPaid(s, payments[..|payments| - 1]), last)
  }

  /** Paying one more curator. */
  lemma OneMorePaid(s: State, payments: seq<Payment>, p: Payment)
    requires InOrder(s) && AllPayable(payments, s.holders.Keys) && Payable(p.vote, s.holders.Keys)
    ensures AllPayable(payments + [p], s.holders.Keys)
    ensures CuratorsPaid(s, payments + [p]) == CuratorPaid(CuratorsPaid(s, payments), p)
    ensures Amounts(payments + [p]) == Amounts(payments) + p.amount
  {
    hide SteemGap, SbdGap, VestGap, InOrder, CuratorPaid, Payable;
    AmountsOfMore(payments, p);
    assert (payments + [p])[..|payments|] == payments;
  }

  /** The listed votes all belong to known accounts. */
  ghost predicate ListPayable(list: seq<Entry>, names: set<Name>) {
    forall i {:trigger list[i]} :: 0 <= i < |list| ==> Payable(list[i].vote, names)
  }

  /** Tokens go back to the reward fund. */
  function Refunded(s: State, amount: nat): (r: State)
    requires InOrder(s)
    ensures InOrder(r) && GapsMoved(s, r, 0 - amount, 0, 0)
  {
    RewardsMoved(s, amount)
  }

  // ----- a whole payout -----

  /** What the payout of a post depends on. */
  datatype Post = Post(
    author: Name,
    rewardWeight: nat,       // reward_weight
    maxPayout: nat,          // max_accepted_payout, in SBD
    curationPercent: nat,    // curation_rewards_percent
    allowCuration: bool,
    destination: Destination,
    window: nat,             // auction_window_size
    curve: Curve,
    votes: seq<Vote>,
    beneficiaries: seq<Share>,
    percentDollars: nat)     // percent_steem_dollars

  predicate PostOk(p: Post, names: set<Name>) {
    && p.author in names && p.rewardWeight <= HUNDRED_PERCENT && p.curationPercent <= HUNDRED_PERCENT
    && p.percentDollars <= HUNDRED_PERCENT && InTime(p.window, p.votes)
    && (forall i {:trigger p.votes[i]} :: 0 <= i < |p.votes| ==> Payable(p.votes[i], names))
    && Known(p.beneficiaries, names) && Sharing(p.beneficiaries)
    && forall i {:trigger p.beneficiaries[i]} :: 0 <= i < |p.beneficiaries| ==>
         p.beneficiaries[i].percent <= HUNDRED_PERCENT
  }

  function CurationTokens(p: Post, reward: nat): (r: nat)
    requires p.curationPercent <= HUNDRED_PERCENT
    ensures r <= reward
  {
    PrintWithin(reward, p.curationPercent);
    assert reward * p.curationPercent == p.curationPercent * reward;
    reward * p.curationPercent / HUNDRED_PERCENT
  }

  /** The curators' part and the dollar part are the agreed percentages, rounded down. */
  lemma PartsArePercentages(p: Post, reward: nat, tokens: nat)
    requires p.curationPercent <= HUNDRED_PERCENT && p.percentDollars <= HUNDRED_PERCENT
    ensures IsFloor(CurationTokens(p, reward), reward * p.curationPercent, HUNDRED_PERCENT)
    ensures IsFloor(InDollars(tokens, p.percentDollars), tokens * p.percentDollars, 2 * HUNDRED_PERCENT)
  {
    FloorIs(reward * p.curationPercent, HUNDRED_PERCENT);
    FloorIs(tokens * p.percentDollars, 2 * HUNDRED_PERCENT);
  }

  function TermsOf(p: Post, reward: nat): Terms
    requires p.curationPercent <= HUNDRED_PERCENT && InTime(p.window, p.votes)
  {
    Terms(CurationTokens(p, reward), p.window, p.destination, p.allowCuration, InfoOf(p.curve, p.window, p.votes))
  }

  /** Half of the author's part, or less by choice, is paid in dollars. */
  function InDollars(tokens: nat, percent: nat): (r: nat)
    requires percent <= HUNDRED_PERCENT
    ensures r <= tokens
  {
    MulMono(percent, HUNDRED_PERCENT, tokens);
    MulMono(0, percent, tokens);
    tokens * percent / (2 * HUNDRED_PERCENT)
  }

  /** The author's part: beneficiaries first, then vesting and dollars. */
  function AuthorPaid(s: State, p: Post, tokens: nat, printRate: nat): State
    requires InOrder(s) && PostOk(p, s.holders.Keys) && printRate <= HUNDRED_PERCENT
  {
    var b := p.beneficiaries;
    CutsAtMost(b, tokens);
    var rest := tokens - Cuts(b, |b|, tokens);
    var sbdSteem := InDollars(rest, p.percentDollars);
    var s1 := SharesVested(s, b, |b|, tokens);
    SbdCreated(VestingCreated(s1, p.author, rest - sbdSteem), p.author, sbdSteem, printRate)
  }

  lemma AuthorPaidConserves(s: State, p: Post, tokens: nat, printRate: nat)
    requires InOrder(s) && PostOk(p, s.holders.Keys) && printRate <= HUNDRED_PERCENT
    ensures var r := AuthorPaid(s, p, tokens, printRate);
            InOrder(r) && GapsMoved(s, r, 0 - tokens, 0, 0) && SameRecords(s, r) && r.holders.Keys == s.holders.Keys
  {
    hide SteemGap, SbdGap, VestGap, InOrder, SharesVested, VestingCreated, SbdCreated, Cuts, InDollars;
    var b := p.beneficiaries;
    CutsAtMost(b, tokens);
    var rest := tokens - Cuts(b, |b|, tokens);
    var sbdSteem := InDollars(rest, p.percentDollars);
    var s1 := SharesVested(s, b, |b|, tokens);
    var s2 := VestingCreated(s1, p.author, rest - sbdSteem);
    SbdCreatedConserves(s2, p.author, sbdSteem, printRate);
  }

  // ----- every payment goes to a known account -----

  lemma {:induction false} ListedPayable(p: Post, n: nat, names: set<Name>)
    requires PostOk(p, names) && n <= |p.votes|
    ensures ListPayable(Listed(p.curve, p.window, p.votes, n), names)
  {
    hide Weight, Payable;
    if n > 0 {
      ListedPayable(p, n - 1, names);
      assert Payable(p.votes[n - 1], names);
    }
  }

  lemma ListIsPayable(p: Post, names: set<Name>)
    requires PostOk(p, names)
    ensures ListPayable(InfoOf(p.curve, p.window, p.votes).list, names)
  {
    hide Payable, Listed, Sort, Gathered;
    var list := Listed(p.curve, p.window, p.votes, |p.votes|);
    ListedPayable(p, |p.votes|, names);
    SortOrders(list);
    var sorted := Sort(list);
    forall i | 0 <= i < |sorted| ensures Payable(sorted[i].vote, names) {
      assert sorted[i] in multiset(sorted);
      var k :| 0 <= k < |list| && list[k] == sorted[i];
    }
  }

  lemma {:induction false} PaymentsPayable(t: Terms, list: seq<Entry>, aside: bool, names: set<Name>)
    requires t.info.total > 0 && ListPayable(list, names)
    ensures AllPayable(Payments(t, list, aside), names)
    ensures SetAside(t, list).Some? ==> Payable(SetAside(t, list).value.vote, names)
  {
    hide Payable, Claim;
    if list != [] {
      assert Payable(list[0].vote, names);
      PaymentsPayable(t, list[1..], aside, names);
      PaymentsPayable(t, list[1..], true, names);
    }
  }

  lemma DividePays(t: Terms, names: set<Name>)
    requires TermsOk(t) && ListPayable(t.info.list, names)
    ensures AllPayable(Divide(t).payments, names)
  {
    hide Payable, Payments, SetAside;
    if t.info.total > 0 {
      PaymentsPayable(t, t.info.list, false, names);
    }
  }

  ghost function DivisionOf(p: Post, reward: nat): Division
    requires p.curationPercent <= HUNDRED_PERCENT && InTime(p.window, p.votes)
    requires Support(p.votes, |p.votes|) <= MAX_SHARES
  {
    InfoConsistent(p.curve, p.window, p.votes);
    Divide(TermsOf(p, reward))
  }

  /** Everything that happens to a reward once it is taken from the fund. */
  ghost function RewardPaid(s: State, p: Post, reward: nat, printRate: nat): State
    requires InOrder(s) && PostOk(p, s.holders.Keys) && printRate <= HUNDRED_PERCENT
    requires Support(p.votes, |p.votes|) <= MAX_SHARES
  {
    var t := TermsOf(p, reward);
    var d := DivisionOf(p, reward);
    InfoConsistent(p.curve, p.window, p.votes);
    ListIsPayable(p, s.holders.Keys);
    DividePays(t, s.holders.Keys);
    AuthorPaid(Refunded(CuratorsPaid(s, d.payments), d.toFund), p, reward - t.max + d.toAuthor, printRate)
  }

  /** The fund's loss and all payments cancel out, however the reward is divided. */
  lemma RewardPaidConserves(s: State, p: Post, reward: nat, printRate: nat)
    requires InOrder(s) && PostOk(p, s.holders.Keys) && printRate <= HUNDRED_PERCENT
    requires Support(p.votes, |p.votes|) <= MAX_SHARES
    ensures var r := RewardPaid(s, p, reward, printRate);
            && InOrder(r) && GapsMoved(s, r, 0 - reward, 0, 0) && r.holders.Keys == s.holders.Keys
            && r.orders == s.orders && r.rewardFund == s.rewardFund + DivisionOf(p, reward).toFund
  {
    hide SteemGap, SbdGap, VestGap, InOrder, CuratorsPaid, AuthorPaid, InfoOf, Divide, CurationTokens, Support;
    var t := TermsOf(p, reward);
    InfoConsistent(p.curve, p.window, p.votes);
    ListIsPayable(p, s.holders.Keys);
    var d := Divide(t);
    DividePays(t, s.holders.Keys);
    DivideConserves(t);
    var s1 := CuratorsPaid(s, d.payments);
    var s2 := Refunded(s1, d.toFund);
    AuthorPaidConserves(s2, p, reward - t.max + d.toAuthor, printRate);
  }
}
