/** Paying out a post as the chain does it: loops over delegators, curators and beneficiaries. */
module Cashout {
  import opened Common
  import opened Market
  import opened LedgerState
  import opened Requests
  import opened LedgerSteps
  import opened Ledger
  import opened Curation
  import opened CurationPayout
  import opened CashoutSteps
  import opened Grants
  import opened CashoutGrants

  lemma NextShare(s: State, shares: seq<Share>, n: nat, claim: nat)
    requires InOrder(s) && n < |shares| && Known(shares, s.holders.Keys)
    ensures var r := SharesVested(s, shares, n, claim);
            var cut := Cut(shares[n], claim);
            && shares[n].account in s.holders
            && SharesVested(s, shares, n + 1, claim) == if cut == 0 then r
                                                        else VestingCreated(r, shares[n].account, cut)
  {
    hide SteemGap, SbdGap, VestGap, InOrder, VestingCreated;
    assert shares[n].account in s.holders.Keys;
    VestingNothing(SharesVested(s, shares, n, claim), shares[n].account);
  }

  /** pay_delegators */
  method PayDelegators(l: Ledger, shares: seq<Share>, claim: nat) returns (paid: nat)
    requires InOrder(l.db) && Known(shares, l.db.holders.Keys)
    modifies l
    ensures l.db == SharesVested(old(l.db), shares, |shares|, claim) && paid == Cuts(shares, |shares|, claim)
    ensures Granted(old(l.db), l.db, ShareGrants(shares, |shares|, claim))
  {
    hide SteemGap, SbdGap, VestGap, GapsMoved, InOrder, VestingCreated, SharesVested, Granted, ShareGrants;
    SharersGetPaid(l.db, shares, claim);
    paid := 0;
    NoSharesYet(l.db, shares, claim);
    for n := 0 to |shares|
      invariant l.db == SharesVested(old(l.db), shares, n, claim) && paid == Cuts(shares, n, claim)
    {
      NextShare(old(l.db), shares, n, claim);
      if shares[n].percent > HUNDRED_PERCENT {
        continue;
      }
      var cut := claim * shares[n].percent / HUNDRED_PERCENT;
      if cut == 0 {
        continue;
      }
      paid := paid + cut;
      l.db := VestingCreated(l.db, shares[n].account, cut);
    }
  }

  lemma NoSharesYet(s: State, shares: seq<Share>, claim: nat)
    requires InOrder(s) && Known(shares, s.holders.Keys)
    ensures SharesVested(s, shares, 0, claim) == s && Cuts(shares, 0, claim) == 0
  {
  }

  /** pay_curator */
  method PayCurator(l: Ledger, p: Payment)
    requires InOrder(l.db) && Payable(p.vote, l.db.holders.Keys)
    modifies l
    ensures l.db == CuratorPaid(old(l.db), p) && Granted(old(l.db), l.db, CuratorGrants(p))
  {
    hide SteemGap, SbdGap, VestGap, InOrder, VestingCreated, SharesVested, Cuts, Granted, CuratorGrants;
    CuratorGetsPaid(l.db, p);
    CutsAtMost(p.vote.rates, p.amount);
    var shared := PayDelegators(l, p.vote.rates, p.amount);
    l.db := VestingCreated(l.db, p.vote.voter, p.amount - shared);
  }

  /** pay_curators */
  method PayCurators(l: Ledger, t: Terms) returns (unclaimed: nat)
    requires InOrder(l.db) && TermsOk(t) && ListPayable(t.info.list, l.db.holders.Keys)
    modifies l
    ensures var d := Divide(t);
            && AllPayable(d.payments, old(l.db).holders.Keys)
            && l.db == Refunded(CuratorsPaid(old(l.db), d.payments), d.toFund)
            && unclaimed == d.toAuthor
            && AllSharing(d.payments) && Granted(old(l.db), l.db, PaymentGrants(d.payments))
  {
    hide SteemGap, SbdGap, VestGap, GapsMoved, InOrder, CuratorsPaid, Payable, Granted, PaymentGrants, AllSharing;
    ghost var s := l.db;
    unclaimed := t.max;
    ghost var paid: seq<Payment> := [];
    NobodyPaidYet(l.db, paid);
    if t.info.total > 0 && t.allowed {
      unclaimed, paid := PayClaims(l, t);
    }
    if !t.allowed {
      l.db := Refunded(l.db, unclaimed);
      unclaimed := 0;
    } else if t.destination != ToAuthor && unclaimed > 0 {
      l.db := Refunded(l.db, unclaimed);
      unclaimed := 0;
    }
    CuratorsGetPaid(s, Divide(t).payments, Divide(t).toFund);
  }

  lemma NobodyPaidYet(s: State, payments: seq<Payment>)
    requires InOrder(s) && payments == []
    ensures CuratorsPaid(s, payments) == s
  {
  }

  /** The payments so far, with db and the unclaimed rest in step. */
  ghost predicate PaidSoFar(s: State, now: State, t: Terms, paid: seq<Payment>, unclaimed: int) {
    && InOrder(s) && AllPayable(paid, s.holders.Keys) && now == CuratorsPaid(s, paid)
    && unclaimed + Amounts(paid) == t.max
  }

  /** Where the loop stands: `done` is paid, the rest of the payments comes from `list`. */
  ghost predicate Reached(t: Terms, done: seq<Payment>, list: seq<Entry>, heaviest: Option<Entry>)
    requires t.info.total > 0
  {
    && done + Payments(t, list, heaviest.Some?) == Payments(t, t.info.list, false)
    && SetAside(t, t.info.list) == if heaviest.Some? then heaviest else SetAside(t, list)
  }

  /** One entry further down the list. */
  lemma ListStep(t: Terms, done: seq<Payment>, list: seq<Entry>, i: nat, heaviest: Option<Entry>)
    requires t.info.total > 0 && i < |list| && Reached(t, done, list[i..], heaviest)
    ensures var e := list[i];
            if SharesAuction(t, e) && heaviest.None? then Reached(t, done, list[i + 1..], Some(e))
            else if Claim(t, e) == 0 then Reached(t, done, [], heaviest)
            else Reached(t, done + [Payment(e.vote, Claim(t, e))], list[i + 1..], heaviest)
  {
    hide Claim;
    assert list[i..][1..] == list[i + 1..];
    var p := Payment(list[i].vote, Claim(t, list[i]));
    var tail := Payments(t, list[i + 1..], heaviest.Some?);
    assert done + ([p] + tail) == done + [p] + tail;
  }

  /** What is paid on the way never exceeds the reward. */
  lemma RoomToPay(t: Terms, done: seq<Payment>, list: seq<Entry>, heaviest: Option<Entry>)
    requires TermsOk(t) && t.info.total > 0 && Reached(t, done, list, heaviest)
    ensures Amounts(done) <= t.max
  {
    var _ := Unclaimed(t);
    AmountsOfPrefix(done, Payments(t, list, heaviest.Some?));
  }

  /** The loop over the votes. */
  method PayList(l: Ledger, t: Terms) returns (unclaimed: nat, heaviest: Option<Entry>, ghost paid: seq<Payment>)
    requires InOrder(l.db) && TermsOk(t) && ListPayable(t.info.list, l.db.holders.Keys)
    requires t.info.total > 0
    modifies l
    ensures PaidSoFar(old(l.db), l.db, t, paid, unclaimed) && Reached(t, paid, [], heaviest)
    ensures heaviest.Some? ==> Payable(heaviest.value.vote, old(l.db).holders.Keys)
  {
    hide SteemGap, SbdGap, VestGap, GapsMoved, InOrder, CuratorPaid, CuratorsPaid, Payable, Reached, Claim;
    unclaimed, heaviest, paid := t.max, None, [];
    NobodyPaidYet(l.db, paid);
    var list := t.info.list;
    assert Reached(t, paid, list[0..], heaviest) by { FromTheTop(t, paid); }
    for i := 0 to |list|
      invariant Reached(t, paid, list[i..], heaviest)
      invariant heaviest.Some? ==> Payable(heaviest.value.vote, old(l.db).holders.Keys)
      invariant PaidSoFar(old(l.db), l.db, t, paid, unclaimed)
    {
      var e := list[i];
      ListStep(t, paid, list, i, heaviest);
      if SharesAuction(t, e) && heaviest.None? {
        heaviest := Some(e);
        continue;
      }
      var claim := Claim(t, e);
      if claim == 0 {
        return;
      }
      var p := Payment(e.vote, claim);
      OneMorePaid(old(l.db), paid, p);
      RoomToPay(t, paid + [p], list[i + 1..], heaviest);
      unclaimed := unclaimed - claim;
      PayCurator(l, p);
      paid := paid + [p];
    }
    assert list[|list|..] == [];
  }

  lemma FromTheTop(t: Terms, done: seq<Payment>)
    requires t.info.total > 0 && done == []
    ensures Reached(t, done, t.info.list[0..], None)
  {
    assert t.info.list[0..] == t.info.list;
    assert done + Payments(t, t.info.list, false) == Payments(t, t.info.list, false);
  }

  /** The loop and the payment to the curator who was set aside. */
  method PayClaims(l: Ledger, t: Terms) returns (unclaimed: nat, ghost paid: seq<Payment>)
    requires InOrder(l.db) && TermsOk(t) && ListPayable(t.info.list, l.db.holders.Keys)
    requires t.info.total > 0
    modifies l
    ensures AllPayable(paid, old(l.db).holders.Keys) && l.db == CuratorsPaid(old(l.db), paid)
    ensures var payments := Payments(t, t.info.list, false);
            match SetAside(t, t.info.list)
            case None => paid == payments && unclaimed == Unclaimed(t)
            case Some(e) => paid == payments + [Payment(e.vote, Unclaimed(t))] && unclaimed == 0
  {
    hide SteemGap, SbdGap, VestGap, GapsMoved, InOrder, CuratorPaid, CuratorsPaid, Payable, Payments, SetAside, Claim;
    var heaviest: Option<Entry>;
    unclaimed, heaviest, paid := PayList(l, t);
    ghost var end: seq<Entry> := [];
    ListEnd(t, end, heaviest.Some?);
    ListEnd(t, t.info.list, false);
    assert Reached(t, paid, end, heaviest);
    assert paid == Payments(t, t.info.list, false);
    if t.destination == ToCurators && heaviest.Some? {
      var p := Payment(heaviest.value.vote, unclaimed);
      OneMorePaid(old(l.db), paid, p);
      PayCurator(l, p);
      unclaimed := 0;
      paid := paid + [p];
    }
  }

  lemma ListEnd(t: Terms, list: seq<Entry>, aside: bool)
    requires t.info.total > 0
    ensures list == [] ==> Payments(t, list, aside) == [] && SetAside(t, list) == None
    ensures SetAside(t, list).Some? ==> t.destination == ToCurators
  {
    if list != [] {
      ListEnd(t, list[1..], aside);
    }
  }

  /** The loop over the beneficiaries of cashout_comment_helper. */
  method PayBeneficiaries(l: Ledger, shares: seq<Share>, tokens: nat) returns (paid: nat)
    requires InOrder(l.db) && Known(shares, l.db.holders.Keys)
    requires forall i {:trigger shares[i]} :: 0 <= i < |shares| ==> shares[i].percent <= HUNDRED_PERCENT
    modifies l
    ensures l.db == SharesVested(old(l.db), shares, |shares|, tokens) && paid == Cuts(shares, |shares|, tokens)
  {
    hide SteemGap, SbdGap, VestGap, GapsMoved, InOrder, VestingCreated, SharesVested;
    paid := 0;
    NoSharesYet(l.db, shares, tokens);
    for n := 0 to |shares|
      invariant l.db == SharesVested(old(l.db), shares, n, tokens) && paid == Cuts(shares, n, tokens)
    {
      NextShare(old(l.db), shares, n, tokens);
      VestingNothing(l.db, shares[n].account);
      var cut := tokens * shares[n].percent / HUNDRED_PERCENT;
      l.db := VestingCreated(l.db, shares[n].account, cut);
      paid := paid + cut;
    }
  }

  /** The payout part of cashout_comment_helper for a post with positive shares. It fails, with nothing
      changed, only when the vote shares overflow. */
  method PayPost(l: Ledger, p: Post, shares: nat, totalShares: nat, printRate: nat) returns (reward: Option<nat>)
    requires l.Valid() && PostOk(p, l.db.holders.Keys) && printRate <= HUNDRED_PERCENT
    requires 0 < shares <= totalShares
    modifies l
    ensures l.Valid() && l.db.holders.Keys == old(l.db).holders.Keys
    ensures reward.None? ==> l.db == old(l.db) && Support(p.votes, |p.votes|) > MAX_SHARES
    ensures reward.Some? ==>
              && reward.value ==
                   Reward(old(l.db).rewardFund, shares, p.rewardWeight, totalShares, old(l.db).feed, p.maxPayout)
              && (if reward.value == 0 then l.db == old(l.db)
                  else && Support(p.votes, |p.votes|) <= MAX_SHARES
                       && l.db == RewardPaid(RewardsMoved(old(l.db), 0 - reward.value), p, reward.value, printRate)
                       && PostPaid(old(l.db), l.db, p, reward.value, printRate))
  {
    hide InOrder, Conserved, Uncrossed, Counted, GapsMoved, Reward, RewardPaid, CuratorsPaid, AuthorPaid, PostPaid,
        Support, PostGrants, Divide;
    FundsAre(l.db);
    var tokens := Reward(l.db.rewardFund, shares, p.rewardWeight, totalShares, l.db.feed, p.maxPayout);
    if tokens == 0 {
      return Some(0);
    }
    var before := l.db;
    l.db := RewardsMoved(l.db, 0 - tokens as int);
    var info := Collect(p.curve, p.window, p.votes);
    if info.None? {
      l.db := before;
      return None;
    }
    ghost var taken := l.db;
    RewardPaidConserves(taken, p, tokens, printRate);
    RewardPaysPost(before, p, tokens, printRate);
    PayTokens(l, p, info.value, tokens, printRate);
    GapsAdd(before, taken, l.db, tokens, 0, 0, 0 - tokens as int, 0, 0);
    NoGap(before, l.db);
    PostPaidCounted(before, l.db, p, tokens, printRate);
    return Some(tokens);
  }

  lemma FundsAre(s: State)
    requires InOrder(s)
    ensures FundsOk(s) && FeedOk(s.feed)
  {
  }

  method PayTokens(l: Ledger, p: Post, info: Info, tokens: nat, printRate: nat)
    requires InOrder(l.db) && PostOk(p, l.db.holders.Keys) && printRate <= HUNDRED_PERCENT
    requires Support(p.votes, |p.votes|) <= MAX_SHARES && info == InfoOf(p.curve, p.window, p.votes)
    modifies l
    ensures l.db == RewardPaid(old(l.db), p, tokens, printRate)
  {
    hide SteemGap, SbdGap, VestGap, InOrder, CuratorsPaid, SharesVested, SbdCreated, VestingCreated, InfoOf, Divide,
        Support, Cuts;
    var curation := CurationTokens(p, tokens);
    var t := Terms(curation, p.window, p.destination, p.allowCuration, info);
    InfoConsistent(p.curve, p.window, p.votes);
    ListIsPayable(p, l.db.holders.Keys);
    var author := tokens - curation;
    var unclaimed := PayCurators(l, t);
    author := author + unclaimed;
    CutsAtMost(p.beneficiaries, author);
    var paid := PayBeneficiaries(l, p.beneficiaries, author);
    author := author - paid;
    var sbdSteem := InDollars(author, p.percentDollars);
    l.db := VestingCreated(l.db, p.author, author - sbdSteem);
    l.db := SbdCreated(l.db, p.author, sbdSteem, printRate);
  }
}
