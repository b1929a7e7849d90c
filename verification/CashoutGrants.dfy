/** Who is paid by a cashout. Conservation says that nothing is lost; this says where it goes. */
module CashoutGrants {
  import opened Arith
  import opened Common
  import opened Market
  import opened LedgerState
  import opened LedgerSteps
  import opened LedgerPayments
  import opened Grants
  import opened Requests
  import opened Curation
  import opened CurationPayout
  import opened CashoutSteps

  // ----- delegators and beneficiaries -----

  /** Each of the first n accounts gets its own cut. */
  function ShareGrants(shares: seq<Share>, n: nat, claim: nat): seq<Grant>
    requires n <= |shares|
  {
    if n == 0 then [] else ShareGrants(shares, n - 1, claim) + [Grant(shares[n - 1].account, Cut(shares[n - 1], claim))]
  }

  /** A cut is the agreed percentage, rounded down. */
  lemma CutIsPercentage(share: Share, claim: nat)
    requires share.percent <= HUNDRED_PERCENT
    ensures IsFloor(Cut(share, claim), claim * share.percent, HUNDRED_PERCENT)
  {
    FloorIs(claim * share.percent, HUNDRED_PERCENT);
  }

  lemma {:induction false} ShareTokens(shares: seq<Share>, n: nat, claim: nat)
    requires n <= |shares|
    ensures |ShareGrants(shares, n, claim)| == n && TokensIn(ShareGrants(shares, n, claim)) == Cuts(shares, n, claim)
    ensures forall i :: 0 <= i < n ==>
              ShareGrants(shares, n, claim)[i] == Grant(shares[i].account, Cut(shares[i], claim))
  {
    if n > 0 {
      ShareTokens(shares, n - 1, claim);
      var before := ShareGrants(shares, n - 1, claim);
      assert ShareGrants(shares, n, claim)[..n - 1] == before;
    }
  }

  lemma {:induction false} SharesGranted(s: State, r: State, grants: seq<Grant>, shares: seq<Share>, n: nat, claim: nat)
    requires Granted(s, r, grants) && InOrder(r) && n <= |shares| && Known(shares, r.holders.Keys)
    ensures Granted(s, SharesVested(r, shares, n, claim), grants + ShareGrants(shares, n, claim))
  {
    hide InOrder, GapsMoved, VestingCreated, Granted;
    if n == 0 {
      assert grants + ShareGrants(shares, n, claim) == grants;
    } else {
      SharesGranted(s, r, grants, shares, n - 1, claim);
      var before, last := ShareGrants(shares, n - 1, claim), Grant(shares[n - 1].account, Cut(shares[n - 1], claim));
      assert shares[n - 1].account in r.holders.Keys;
      OneMoreGrant(s, SharesVested(r, shares, n - 1, claim), grants + before, last.to, last.tokens);
      assert grants + before + [last] == grants + (before + [last]);
    }
  }

  // ----- curators -----

  /** The delegators get their cuts, and the voter what they leave. */
  function CuratorGrants(p: Payment): seq<Grant>
    requires Sharing(p.vote.rates)
  {
    var rates := p.vote.rates;
    CutsAtMost(rates, p.amount);
    ShareGrants(rates, |rates|, p.amount) + [Grant(p.vote.voter, p.amount - Cuts(rates, |rates|, p.amount))]
  }

  /** Together the payment; and the voter keeps at least the percentage that is not shared. */
  lemma CuratorTokens(p: Payment)
    requires Sharing(p.vote.rates)
    ensures var grants := CuratorGrants(p);
            && TokensIn(grants) == p.amount && |grants| == |p.vote.rates| + 1
            && (forall i :: 0 <= i < |p.vote.rates| ==>
                  grants[i] == Grant(p.vote.rates[i].account, Cut(p.vote.rates[i], p.amount)))
            && grants[|p.vote.rates|].to == p.vote.voter
            && HUNDRED_PERCENT * grants[|p.vote.rates|].tokens >=
                 p.amount * (HUNDRED_PERCENT - Percents(p.vote.rates, |p.vote.rates|))
  {
    hide Cuts, Percents;
    var rates := p.vote.rates;
    CutsAtMost(rates, p.amount);
    ShareTokens(rates, |rates|, p.amount);
    CutsWithin(rates, |rates|, p.amount);
    var shared, rest :=
        ShareGrants(rates, |rates|, p.amount), Grant(p.vote.voter, p.amount - Cuts(rates, |rates|, p.amount));
    assert (shared + [rest])[..|shared|] == shared;
    LeftOver(p.amount, Percents(rates, |rates|));
  }

  lemma LeftOver(amount: int, percents: int)
    ensures amount * (HUNDRED_PERCENT - percents) == HUNDRED_PERCENT * amount - amount * percents
  {
  }

  lemma CuratorGranted(s: State, r: State, grants: seq<Grant>, p: Payment)
    requires Granted(s, r, grants) && InOrder(r) && Payable(p.vote, r.holders.Keys)
    ensures Granted(s, CuratorPaid(r, p), grants + CuratorGrants(p))
  {
    hide InOrder, GapsMoved, VestingCreated, SharesVested, Cuts, Granted, Percents;
    var rates := p.vote.rates;
    CutsAtMost(rates, p.amount);
    SharesGranted(s, r, grants, rates, |rates|, p.amount);
    var shared, rest := ShareGrants(rates, |rates|, p.amount), p.amount - Cuts(rates, |rates|, p.amount);
    OneMoreGrant(s, SharesVested(r, rates, |rates|, p.amount), grants + shared, p.vote.voter, rest);
    assert grants + shared + [Grant(p.vote.voter, rest)] == grants + (shared + [Grant(p.vote.voter, rest)]);
  }

  ghost predicate AllSharing(payments: seq<Payment>) {
    forall i {:trigger payments[i]} :: 0 <= i < |payments| ==> Sharing(payments[i].vote.rates)
  }

  /** One curator after the other. */
  ghost function PaymentGrants(payments: seq<Payment>): seq<Grant>
    requires AllSharing(payments)
  {
    if payments == [] then []
    else PaymentGrants(payments[..|payments| - 1]) + CuratorGrants(payments[|payments| - 1])
  }

  lemma {:induction false} PaymentTokens(payments: seq<Payment>)
    requires AllSharing(payments)
    ensures TokensIn(PaymentGrants(payments)) == Amounts(payments)
  {
    hide CuratorGrants, Sharing;
    if payments != [] {
      var before, last := payments[..|payments| - 1], payments[|payments| - 1];
      PaymentTokens(before);
      CuratorTokens(last);
      TokensAdd(PaymentGrants(before), CuratorGrants(last));
    }
  }

  lemma PayableShares(payments: seq<Payment>, names: set<Name>)
    requires AllPayable(payments, names)
    ensures AllSharing(payments)
  {
    forall i | 0 <= i < |payments| ensures Sharing(payments[i].vote.rates) {
      assert Payable(payments[i].vote, names);
    }
  }

  lemma {:induction false} PaymentsGranted(s: State, r: State, grants: seq<Grant>, payments: seq<Payment>)
    requires Granted(s, r, grants) && InOrder(r) && AllPayable(payments, r.holders.Keys)
    ensures AllSharing(payments) && Granted(s, CuratorsPaid(r, payments), grants + PaymentGrants(payments))
  {
    hide InOrder, GapsMoved, CuratorPaid, Granted, Payable, CuratorGrants, Sharing;
    PayableShares(payments, r.holders.Keys);
    if payments == [] {
      assert grants + PaymentGrants(payments) == grants;
    } else {
      var before, last := payments[..|payments| - 1], payments[|payments| - 1];
      PaymentsGranted(s, r, grants, before);
      CuratorGranted(s, CuratorsPaid(r, before), grants + PaymentGrants(before), last);
      assert grants + PaymentGrants(before) + CuratorGrants(last) ==
          grants + (PaymentGrants(before) + CuratorGrants(last));
    }
  }

  // ----- the author -----

  /** Of tokens that are not vested, what is printed as dollars, and what stays liquid. */
  function DollarPart(feed: Feed, tokens: nat, printRate: nat): int
    requires FeedOk(feed)
  {
    if feed.NoFeed? then 0 else Convert(printRate * tokens / HUNDRED_PERCENT, feed.sbd, feed.steem)
  }

  function LiquidPart(feed: Feed, tokens: nat, printRate: nat): int {
    if feed.NoFeed? then tokens else tokens - printRate * tokens / HUNDRED_PERCENT
  }

  /** Only `a` changes: by these amounts, and by interest that was due already. */
  ghost predicate Gets(s: State, r: State, a: Name, steem: int, sbd: int) {
    && a in s.holders && r.holders.Keys == s.holders.Keys && PoolOf(r) == PoolOf(s) && r.env == s.env
    && r.withdrawals == s.withdrawals
    && (forall b {:trigger r.holders[b]} :: b in s.holders && b != a ==> r.holders[b] == s.holders[b])
    && var before, after := s.holders[a], r.holders[a];
       && after.steem == before.steem + steem && after.vests == before.vests && after.requests == before.requests
       && after.savings == before.savings && after.savingsSbd == before.savingsSbd
       && after.sbd >= before.sbd + sbd && Dollar(after, s.env) == Dollar(before, s.env) + sbd
  }

  lemma AdjustedGets(s: State, a: Name, delta: nat, inSteem: bool)
    requires InOrder(s) && a in s.holders
    ensures Gets(s, Adjusted(s, a, delta, inSteem), a, if inSteem then delta else 0, if inSteem then 0 else delta)
  {
    hide InOrder, GapsMoved, SbdInterest, Settled;
    InterestIsFine(s, a);
    PaidOnce(s.holders[a], delta, inSteem, s.env);
  }

  lemma GetsTwice(s: State, t: State, r: State, a: Name, steem: int, sbd: int, steem': int, sbd': int)
    requires Gets(s, t, a, steem, sbd) && Gets(t, r, a, steem', sbd')
    ensures Gets(s, r, a, steem + steem', sbd + sbd')
  {
    hide Dollar;
    forall b | b in s.holders && b != a ensures r.holders[b] == s.holders[b] {
      assert t.holders[b] == s.holders[b];
    }
  }

  lemma SbdCreatedPays(s: State, a: Name, tokens: nat, printRate: nat)
    requires InOrder(s) && a in s.holders && printRate <= HUNDRED_PERCENT && FeedOk(s.feed)
    ensures var r := SbdCreated(s, a, tokens, printRate);
            Gets(s, r, a, LiquidPart(s.feed, tokens, printRate), DollarPart(s.feed, tokens, printRate))
  {
    hide InOrder, GapsMoved, Adjusted, Gets, Convert;
    if tokens == 0 {
      ConvertZero(s.feed, printRate);
      GetsNothing(s, a);
    } else if s.feed.NoFeed? {
      AdjustedGets(s, a, tokens, true);
    } else {
      var toSbd := printRate * tokens / HUNDRED_PERCENT;
      PrintWithin(tokens, printRate);
      ConvertNonNegative(toSbd, s.feed.sbd, s.feed.steem);
      var sbd := Convert(toSbd, s.feed.sbd, s.feed.steem);
      var s1 := Adjusted(s, a, sbd, false);
      var s2 := Adjusted(s1, a, tokens - toSbd, true);
      AdjustedGets(s, a, sbd, false);
      AdjustedGets(s1, a, tokens - toSbd, true);
      GetsTwice(s, s1, s2, a, 0, sbd, tokens - toSbd, 0);
      SuppliesAside(s, s2, a, tokens - toSbd, sbd, -toSbd, sbd);
    }
  }

  lemma ConvertZero(feed: Feed, printRate: nat)
    requires FeedOk(feed)
    ensures LiquidPart(feed, 0, printRate) == 0 && DollarPart(feed, 0, printRate) == 0
  {
    assert printRate * 0 / HUNDRED_PERCENT == 0;
  }

  lemma GetsNothing(s: State, a: Name)
    requires a in s.holders
    ensures Gets(s, s, a, 0, 0)
  {
  }

  lemma SuppliesAside(s: State, r: State, a: Name, steem: int, sbd: int, steemSupply: int, sbdSupply: int)
    requires Gets(s, r, a, steem, sbd) && InOrder(r)
    ensures Gets(s, SuppliesMoved(r, steemSupply, sbdSupply), a, steem, sbd)
  {
    hide InOrder, GapsMoved;
  }

  /** The author's own tokens, once the beneficiaries have theirs. */
  function AuthorTokens(p: Post, tokens: nat): nat
    requires Sharing(p.beneficiaries)
  {
    CutsAtMost(p.beneficiaries, tokens);
    tokens - Cuts(p.beneficiaries, |p.beneficiaries|, tokens)
  }

  function AuthorGrants(p: Post, tokens: nat): seq<Grant>
    requires Sharing(p.beneficiaries) && p.percentDollars <= HUNDRED_PERCENT
  {
    var rest := AuthorTokens(p, tokens);
    ShareGrants(p.beneficiaries, |p.beneficiaries|, tokens) +
        [Grant(p.author, rest - InDollars(rest, p.percentDollars))]
  }

  lemma AuthorTokensGranted(p: Post, tokens: nat)
    requires Sharing(p.beneficiaries) && p.percentDollars <= HUNDRED_PERCENT
    ensures TokensIn(AuthorGrants(p, tokens)) + InDollars(AuthorTokens(p, tokens), p.percentDollars) == tokens
  {
    hide Cuts, InDollars, Sharing;
    ShareTokens(p.beneficiaries, |p.beneficiaries|, tokens);
    var shared, rest := ShareGrants(p.beneficiaries, |p.beneficiaries|, tokens), AuthorTokens(p, tokens);
    var last := Grant(p.author, rest - InDollars(rest, p.percentDollars));
    assert (shared + [last])[..|shared|] == shared;
  }

  /** Everyone has the shares granted; the author has liquid tokens and dollars besides; nothing else has changed. */
  ghost predicate Paid(s: State, r: State, grants: seq<Grant>, author: Name, steem: int, sbd: int) {
    && author in s.holders && r.holders.Keys == s.holders.Keys && PoolOf(r) == PoolThrough(PoolOf(s), grants)
    && r.env == s.env && r.withdrawals == s.withdrawals
    && (forall a {:trigger r.holders[a]} :: a in s.holders && a != author ==>
          r.holders[a] == s.holders[a].(vests := s.holders[a].vests + SharesTo(PoolOf(s), grants, a)))
    && var before, after := s.holders[author], r.holders[author];
       && after.vests == before.vests + SharesTo(PoolOf(s), grants, author) && after.steem == before.steem + steem
       && after.savings == before.savings && after.savingsSbd == before.savingsSbd
       && after.requests == before.requests
       && after.sbd >= before.sbd + sbd && Dollar(after, s.env) == Dollar(before, s.env) + sbd
  }

  lemma GrantedThenGets(s: State, t: State, r: State, grants: seq<Grant>, author: Name, steem: int, sbd: int)
    requires Granted(s, t, grants) && Gets(t, r, author, steem, sbd) && t.env == s.env
    ensures Paid(s, r, grants, author, steem, sbd)
  {
    forall a | a in s.holders
      ensures t.holders[a] == s.holders[a].(vests := s.holders[a].vests + SharesTo(PoolOf(s), grants, a))
    {
    }
    assert SbdInterest(t.holders[author], s.env) == SbdInterest(s.holders[author], s.env);
    forall a | a in s.holders && a != author
      ensures r.holders[a] == s.holders[a].(vests := s.holders[a].vests + SharesTo(PoolOf(s), grants, a))
    {
      assert r.holders[a] == t.holders[a];
    }
  }

  lemma AuthorPays(s: State, r: State, grants: seq<Grant>, p: Post, tokens: nat, printRate: nat)
    requires Granted(s, r, grants) && r.env == s.env && r.feed == s.feed && FeedOk(s.feed)
    requires InOrder(r) && PostOk(p, r.holders.Keys) && printRate <= HUNDRED_PERCENT
    ensures var unvested := InDollars(AuthorTokens(p, tokens), p.percentDollars);
            Paid(s, AuthorPaid(r, p, tokens, printRate), grants + AuthorGrants(p, tokens), p.author,
                 LiquidPart(s.feed, unvested, printRate), DollarPart(s.feed, unvested, printRate))
  {
    hide InOrder, GapsMoved, VestingCreated, SharesVested, SbdCreated, Cuts, Percents, InDollars, Granted, Gets, Paid,
        LiquidPart, DollarPart;
    var b, rest := p.beneficiaries, AuthorTokens(p, tokens);
    CutsAtMost(b, tokens);
    var unvested := InDollars(rest, p.percentDollars);
    var r1 := SharesVested(r, b, |b|, tokens);
    SharesGranted(s, r, grants, b, |b|, tokens);
    var r2 := VestingCreated(r1, p.author, rest - unvested);
    var shared, last := ShareGrants(b, |b|, tokens), Grant(p.author, rest - unvested);
    OneMoreGrant(s, r1, grants + shared, p.author, rest - unvested);
    assert grants + shared + [last] == grants + (shared + [last]);
    SbdCreatedPays(r2, p.author, unvested, printRate);
    GrantedThenGets(s, r2, SbdCreated(r2, p.author, unvested, printRate), grants + AuthorGrants(p, tokens), p.author,
                    LiquidPart(s.feed, unvested, printRate), DollarPart(s.feed, unvested, printRate));
  }

  // ----- a whole payout -----

  /** What goes to the author's side: everything that the curators and the fund do not get. */
  ghost function AuthorSide(p: Post, reward: nat): nat
    requires p.curationPercent <= HUNDRED_PERCENT && InTime(p.window, p.votes)
    requires Support(p.votes, |p.votes|) <= MAX_SHARES
  {
    reward - CurationTokens(p, reward) + DivisionOf(p, reward).toAuthor
  }

  /** The tokens of the author that are not vested. */
  ghost function Unvested(p: Post, reward: nat): nat
    requires p.curationPercent <= HUNDRED_PERCENT && InTime(p.window, p.votes)
    requires Support(p.votes, |p.votes|) <= MAX_SHARES
    requires Sharing(p.beneficiaries) && p.percentDollars <= HUNDRED_PERCENT
  {
    InDollars(AuthorTokens(p, AuthorSide(p, reward)), p.percentDollars)
  }

  /** Curators with their delegators, then beneficiaries, then the author. */
  ghost function PostGrants(p: Post, reward: nat, names: set<Name>): seq<Grant>
    requires PostOk(p, names) && Support(p.votes, |p.votes|) <= MAX_SHARES
  {
    var payments := DivisionOf(p, reward).payments;
    PostPayable(p, reward, names);
    PayableShares(payments, names);
    PaymentGrants(payments) + AuthorGrants(p, AuthorSide(p, reward))
  }

  lemma PostPayable(p: Post, reward: nat, names: set<Name>)
    requires PostOk(p, names) && Support(p.votes, |p.votes|) <= MAX_SHARES
    ensures AllPayable(DivisionOf(p, reward).payments, names)
  {
    InfoConsistent(p.curve, p.window, p.votes);
    ListIsPayable(p, names);
    DividePays(TermsOf(p, reward), names);
  }

  /** The grants, the author's other tokens and what goes back to the fund are exactly the reward. */
  lemma PostTokens(p: Post, reward: nat, names: set<Name>)
    requires PostOk(p, names) && Support(p.votes, |p.votes|) <= MAX_SHARES
    ensures TokensIn(PostGrants(p, reward, names)) + Unvested(p, reward) + DivisionOf(p, reward).toFund == reward
  {
    hide InfoOf, Divide, PaymentGrants, AuthorGrants, Support, CurationTokens;
    var d := DivisionOf(p, reward);
    InfoConsistent(p.curve, p.window, p.votes);
    DivideConserves(TermsOf(p, reward));
    PostPayable(p, reward, names);
    PayableShares(d.payments, names);
    PaymentTokens(d.payments);
    AuthorTokensGranted(p, AuthorSide(p, reward));
    TokensAdd(PaymentGrants(d.payments), AuthorGrants(p, AuthorSide(p, reward)));
  }

  /** A reward taken from the fund reaches exactly these accounts. */
  lemma RewardPays(s: State, p: Post, reward: nat, printRate: nat)
    requires InOrder(s) && PostOk(p, s.holders.Keys) && printRate <= HUNDRED_PERCENT && FeedOk(s.feed)
    requires Support(p.votes, |p.votes|) <= MAX_SHARES
    ensures var r := RewardPaid(s, p, reward, printRate);
            Paid(s, r, PostGrants(p, reward, s.holders.Keys), p.author,
                 LiquidPart(s.feed, Unvested(p, reward), printRate), DollarPart(s.feed, Unvested(p, reward), printRate))
  {
    hide InOrder, GapsMoved, InfoOf, Divide, CuratorsPaid, AuthorPaid, PaymentGrants, AuthorGrants, Granted, Paid,
        Support,
        LiquidPart, DollarPart, CurationTokens, AuthorTokens;
    var d := DivisionOf(p, reward);
    PostPayable(p, reward, s.holders.Keys);
    CuratorsGetPaid(s, d.payments, d.toFund);
    var t := Refunded(CuratorsPaid(s, d.payments), d.toFund);
    AuthorPays(s, t, PaymentGrants(d.payments), p, AuthorSide(p, reward), printRate);
  }

  /** The reward of the post has left the fund and reached exactly the accounts it is granted to; what nobody may claim
      is back in the fund. */
  ghost predicate PostPaid(s: State, r: State, p: Post, reward: nat, printRate: nat)
    requires PostOk(p, s.holders.Keys) && Support(p.votes, |p.votes|) <= MAX_SHARES && FeedOk(s.feed)
  {
    && Paid(s, r, PostGrants(p, reward, s.holders.Keys), p.author,
            LiquidPart(s.feed, Unvested(p, reward), printRate), DollarPart(s.feed, Unvested(p, reward), printRate))
    && r.rewardFund == s.rewardFund - reward + DivisionOf(p, reward).toFund
  }

  lemma PostPaidCounted(s: State, r: State, p: Post, reward: nat, printRate: nat)
    requires InOrder(s) && PostOk(p, s.holders.Keys) && Support(p.votes, |p.votes|) <= MAX_SHARES && FeedOk(s.feed)
    requires PostPaid(s, r, p, reward, printRate)
    ensures CountsKept(s, r)
  {
    hide InOrder, PostGrants, PoolThrough, SharesTo, LiquidPart, DollarPart, DivisionOf, Unvested, CountsKept, Support,
        PostOk;
    SameCounted(s, r);
  }

  lemma RewardPaysPost(s: State, p: Post, reward: nat, printRate: nat)
    requires InOrder(s) && PostOk(p, s.holders.Keys) && printRate <= HUNDRED_PERCENT && reward <= s.rewardFund
    requires Support(p.votes, |p.votes|) <= MAX_SHARES && FeedOk(s.feed)
    ensures PostPaid(s, RewardPaid(RewardsMoved(s, 0 - reward), p, reward, printRate), p, reward, printRate)
  {
    hide InOrder, GapsMoved, RewardPaid, PostGrants, Unvested, Support, DivisionOf, PostOk, LiquidPart, DollarPart;
    var t := RewardsMoved(s, 0 - reward);
    RewardPays(t, p, reward, printRate);
    RewardPaidConserves(t, p, reward, printRate);
  }

  lemma RefundGrantsNothing(s: State, t: State, grants: seq<Grant>, amount: nat)
    requires Granted(s, t, grants) && InOrder(t)
    ensures var r := Refunded(t, amount);
            Granted(s, r, grants) && r.env == t.env && r.feed == t.feed && r.holders == t.holders
  {
    hide InOrder, GapsMoved;
  }

  // ----- each part by itself -----

  lemma SharersGetPaid(s: State, shares: seq<Share>, claim: nat)
    requires InOrder(s) && Known(shares, s.holders.Keys)
    ensures Granted(s, SharesVested(s, shares, |shares|, claim), ShareGrants(shares, |shares|, claim))
  {
    hide InOrder, SharesVested, ShareGrants, Granted;
    NothingGranted(s, []);
    SharesGranted(s, s, [], shares, |shares|, claim);
    assert [] + ShareGrants(shares, |shares|, claim) == ShareGrants(shares, |shares|, claim);
  }

  lemma CuratorGetsPaid(s: State, p: Payment)
    requires InOrder(s) && Payable(p.vote, s.holders.Keys)
    ensures Granted(s, CuratorPaid(s, p), CuratorGrants(p))
  {
    hide InOrder, CuratorPaid, CuratorGrants, Granted;
    NothingGranted(s, []);
    CuratorGranted(s, s, [], p);
    assert [] + CuratorGrants(p) == CuratorGrants(p);
  }

  lemma CuratorsGetPaid(s: State, payments: seq<Payment>, toFund: nat)
    requires InOrder(s) && AllPayable(payments, s.holders.Keys)
    ensures AllSharing(payments) && Granted(s, Refunded(CuratorsPaid(s, payments), toFund), PaymentGrants(payments))
  {
    hide InOrder, CuratorsPaid, PaymentGrants, Granted, Refunded;
    NothingGranted(s, []);
    PaymentsGranted(s, s, [], payments);
    assert [] + PaymentGrants(payments) == PaymentGrants(payments);
    RefundGrantsNothing(s, CuratorsPaid(s, payments), PaymentGrants(payments), toFund);
  }

  // ----- everyone else -----

  predicate Names(shares: seq<Share>, a: Name) {
    exists i :: 0 <= i < |shares| && shares[i].account == a
  }

  /** Neither author, beneficiary, voter nor delegator of a voter. */
  predicate Uninvolved(p: Post, a: Name) {
    && a != p.author && !Names(p.beneficiaries, a)
    && forall i :: 0 <= i < |p.votes| ==> p.votes[i].voter != a && !Names(p.votes[i].rates, a)
  }

  /** The post can be paid as if `a` did not exist. */
  lemma PayableWithout(p: Post, names: set<Name>, a: Name)
    requires PostOk(p, names) && Uninvolved(p, a)
    ensures PostOk(p, names - {a})
  {
    hide Percents;
    forall i | 0 <= i < |p.votes| ensures Payable(p.votes[i], names - {a}) {
      assert Payable(p.votes[i], names);
    }
  }

  ghost predicate AllTo(grants: seq<Grant>, names: set<Name>) {
    forall i {:trigger grants[i]} :: 0 <= i < |grants| ==> grants[i].to in names
  }

  lemma SharesToNames(shares: seq<Share>, claim: nat, names: set<Name>)
    requires Known(shares, names)
    ensures AllTo(ShareGrants(shares, |shares|, claim), names)
  {
    ShareTokens(shares, |shares|, claim);
    forall i | 0 <= i < |shares| ensures shares[i].account in names {
    }
  }

  lemma {:induction false} PaymentsToNames(payments: seq<Payment>, names: set<Name>)
    requires AllPayable(payments, names)
    ensures AllSharing(payments) && AllTo(PaymentGrants(payments), names)
  {
    hide ShareGrants, Percents;
    PayableShares(payments, names);
    if payments != [] {
      var last := payments[|payments| - 1];
      assert Payable(last.vote, names);
      PaymentsToNames(payments[..|payments| - 1], names);
      SharesToNames(last.vote.rates, last.amount, names);
    }
  }

  /** A payout leaves everyone who has nothing to do with the post as they were. */
  lemma OthersUnchanged(s: State, p: Post, reward: nat, printRate: nat, a: Name)
    requires InOrder(s) && PostOk(p, s.holders.Keys) && printRate <= HUNDRED_PERCENT && FeedOk(s.feed)
    requires Support(p.votes, |p.votes|) <= MAX_SHARES && a in s.holders && Uninvolved(p, a)
    ensures var r := RewardPaid(s, p, reward, printRate);
            a in r.holders && r.holders[a] == s.holders[a]
  {
    hide InOrder, GapsMoved, InfoOf, Divide, RewardPaid, PaymentGrants, ShareGrants, Support, LiquidPart, DollarPart,
        CurationTokens,
        InDollars, Cuts, Percents, PoolThrough, SharesTo, Uninvolved, AuthorSide;
    var names := s.holders.Keys - {a};
    RewardPays(s, p, reward, printRate);
    PayableWithout(p, s.holders.Keys, a);
    PostPayable(p, reward, names);
    PaymentsToNames(DivisionOf(p, reward).payments, names);
    SharesToNames(p.beneficiaries, AuthorSide(p, reward), names);
    var grants := PostGrants(p, reward, s.holders.Keys);
    assert AllTo(grants, names);
    NobodyElse(PoolOf(s), grants, a);
  }
}
