/** The steps of the ledger that leave the price of vesting shares and the counters of savings requests alone. */
module QuietSteps {
  import opened Common
  import opened Market
  import opened LedgerState
  import opened LedgerSteps
  import opened LedgerPayments
  import opened Requests

  /** The price is the same and the counters are still exact. */
  ghost predicate Quiet(s: State, r: State) {
    SamePool(s, r) && CountsKept(s, r)
  }

  lemma QuietIf(s: State, r: State)
    requires InOrder(s) && SamePool(s, r) && SameRequests(s, r)
    ensures Quiet(s, r)
  {
    hide InOrder;
    SameCounted(s, r);
  }

  lemma AdjustedQuiet(s: State, a: Name, delta: int, inSteem: bool)
    requires InOrder(s) && a in s.holders && (delta >= 0 || Balance(s.holders[a], inSteem) + delta >= 0)
    ensures Quiet(s, Adjusted(s, a, delta, inSteem))
  {
    hide GapsMoved, InOrder, SbdInterest, Settled, CountsKept;
    QuietIf(s, Adjusted(s, a, delta, inSteem));
  }

  lemma AdjustedSavingsQuiet(s: State, a: Name, delta: int, inSteem: bool)
    requires InOrder(s) && a in s.holders && (delta >= 0 || Saved(s.holders[a], inSteem) + delta >= 0)
    ensures Quiet(s, AdjustedSavings(s, a, delta, inSteem))
  {
    hide GapsMoved, InOrder, SavingsInterest, Settled, CountsKept;
    QuietIf(s, AdjustedSavings(s, a, delta, inSteem));
  }

  lemma QuietTwice(s: State, t: State, r: State)
    requires Quiet(s, t) && Quiet(t, r)
    ensures Quiet(s, r)
  {
    hide Counted;
  }

  /** A change of other records only. */
  lemma QuietRecords(s: State, t: State, r: State)
    requires InOrder(t) && Quiet(s, t) && r.holders == t.holders && r.withdrawals == t.withdrawals && SamePool(t, r)
    ensures Quiet(s, r)
  {
    hide InOrder, Counted;
    QuietIf(t, r);
  }

  lemma PaidBothQuiet(s: State, a: Name, steem: int, sbd: int)
    requires InOrder(s) && a in s.holders && 0 <= steem && 0 <= sbd
    ensures Quiet(s, PaidBoth(s, a, steem, sbd))
  {
    hide GapsMoved, InOrder, Adjusted, Quiet;
    AdjustedQuiet(s, a, steem, true);
    var t := Adjusted(s, a, steem, true);
    AdjustedQuiet(t, a, sbd, false);
    QuietTwice(s, t, Adjusted(t, a, sbd, false));
  }

  lemma AccountAddedQuiet(s: State, a: Name)
    requires InOrder(s) && a !in s.holders && s.env.now >= 0
    ensures Quiet(s, AccountAdded(s, a))
  {
    hide GapsMoved, InOrder, CountsKept;
    QuietIf(s, AccountAdded(s, a));
  }

  // ----- savings -----

  lemma RequestQuiet(s: State, from: Name, id: nat, p: Pending)
    requires InOrder(s) && from in s.holders && p.to in s.holders && (from, id) !in s.withdrawals
    requires 0 < p.amount <= Saved(s.holders[from], p.inSteem) && s.holders[from].requests < REQUEST_LIMIT
    ensures Quiet(s, SavingsRequested(s, from, id, p))
  {
    hide GapsMoved, InOrder, Counted, SavingsInterest, Settled;
    RequestCounted(s, from, id, p);
  }

  lemma CancelQuiet(s: State, k: Key)
    requires InOrder(s) && k in s.withdrawals && k.0 in s.holders
    ensures Quiet(s, Recounted(ReturnedToSavings(s, k), k.0, -1))
  {
    CancelCounted(s, k);
    assert PendingOk(k, s.withdrawals[k], s.holders.Keys);
    hide GapsMoved, InOrder, Counted, SavingsInterest, Settled;
  }

  lemma WithdrawalPaidQuiet(s: State, k: Key)
    requires InOrder(s) && k in s.withdrawals
    ensures Quiet(s, WithdrawalPaid(s, k))
  {
    PaidCounted(s, k);
    assert PendingOk(k, s.withdrawals[k], s.holders.Keys);
    hide GapsMoved, InOrder, Counted, SbdInterest, Settled;
  }

  // ----- escrows -----

  lemma EscrowOpenedQuiet(s: State, k: Key, e: Escrow)
    requires InOrder(s) && EscrowOk(e) && k.0 in s.holders && e.to in s.holders && e.agent in s.holders
    requires k !in s.escrows
    requires SteemIn(e) <= s.holders[k.0].steem && SbdIn(e) <= s.holders[k.0].sbd
    ensures Quiet(s, EscrowOpened(s, k, e))
  {
    hide GapsMoved, InOrder, Adjusted, Quiet;
    var t := Adjusted(s, k.0, -SteemIn(e), true);
    StillDollars(s, k.0, -SteemIn(e));
    AdjustedQuiet(s, k.0, -SteemIn(e), true);
    AdjustedQuiet(t, k.0, -SbdIn(e), false);
    var u := Adjusted(t, k.0, -SbdIn(e), false);
    QuietTwice(s, t, u);
    QuietRecords(s, u, EscrowOpened(s, k, e));
  }

  lemma StillDollars(s: State, a: Name, delta: int)
    requires InOrder(s) && a in s.holders && (delta >= 0 || s.holders[a].steem + delta >= 0)
    ensures Adjusted(s, a, delta, true).holders[a].sbd == s.holders[a].sbd
  {
    hide GapsMoved, InOrder;
  }

  lemma EscrowRefundedQuiet(s: State, k: Key)
    requires InOrder(s) && k in s.escrows
    ensures Quiet(s, EscrowRefunded(s, k))
  {
    var e := s.escrows[k];
    assert EscrowOk(e);
    hide GapsMoved, InOrder, Adjusted, Quiet, PaidBoth;
    PaidBothQuiet(s, k.0, e.steem, e.sbd);
    var t := PaidBoth(s, k.0, e.steem, e.sbd);
    AdjustedQuiet(t, k.0, e.fee, e.feeInSteem);
    var u := Adjusted(t, k.0, e.fee, e.feeInSteem);
    QuietTwice(s, t, u);
    QuietRecords(s, u, EscrowRefunded(s, k));
  }

  lemma EscrowRatifiedQuiet(s: State, k: Key, who: Name)
    requires InOrder(s) && k in s.escrows
    ensures Quiet(s, EscrowRatified(s, k, who))
  {
    var e := s.escrows[k];
    assert EscrowOk(e);
    hide GapsMoved, InOrder, Adjusted, CountsKept;
    var e' := Approved(e, who);
    if e'.toApproved && e'.agentApproved {
      AdjustedQuiet(s, e.agent, e.fee, e.feeInSteem);
      QuietRecords(s, Adjusted(s, e.agent, e.fee, e.feeInSteem), EscrowRatified(s, k, who));
    } else {
      QuietIf(s, EscrowRatified(s, k, who));
    }
  }

  lemma EscrowDisputedQuiet(s: State, k: Key)
    requires InOrder(s) && k in s.escrows
    ensures Quiet(s, EscrowDisputed(s, k))
  {
    assert EscrowOk(s.escrows[k]);
    hide GapsMoved, InOrder, CountsKept;
    QuietIf(s, EscrowDisputed(s, k));
  }

  lemma EscrowReleasedQuiet(s: State, k: Key, receiver: Name, steem: nat, sbd: nat)
    requires InOrder(s) && k in s.escrows && receiver in s.holders
    requires s.escrows[k].toApproved && s.escrows[k].agentApproved && steem <= s.escrows[k].steem
    requires sbd <= s.escrows[k].sbd
    ensures Quiet(s, EscrowReleased(s, k, receiver, steem, sbd))
  {
    assert EscrowOk(s.escrows[k]);
    hide GapsMoved, InOrder, PaidBoth, Quiet;
    PaidBothQuiet(s, receiver, steem, sbd);
    QuietRecords(s, PaidBoth(s, receiver, steem, sbd), EscrowReleased(s, k, receiver, steem, sbd));
  }

  // ----- conversions and the market -----

  lemma ConversionRequestedQuiet(s: State, owner: Name, id: nat, p: Pending)
    requires InOrder(s) && owner in s.holders && p.to in s.holders && (owner, id) !in s.conversions
    requires 0 < p.amount <= s.holders[owner].sbd && !p.inSteem
    ensures Quiet(s, ConversionRequested(s, owner, id, p))
  {
    hide GapsMoved, InOrder, Adjusted, Quiet;
    AdjustedQuiet(s, owner, -p.amount, false);
    QuietRecords(s, Adjusted(s, owner, -p.amount, false), ConversionRequested(s, owner, id, p));
  }

  lemma ConversionPaidQuiet(s: State, k: Key)
    requires InOrder(s) && k in s.conversions && s.feed.Feed?
    ensures Quiet(s, ConversionPaid(s, k))
  {
    var p := s.conversions[k];
    assert PendingOk(k, p, s.holders.Keys);
    ConvertNonNegative(p.amount, s.feed.steem, s.feed.sbd);
    hide GapsMoved, InOrder, Adjusted, Quiet;
    var worth := Convert(p.amount, s.feed.steem, s.feed.sbd);
    AdjustedQuiet(s, p.to, worth, true);
    QuietRecords(s, Adjusted(s, p.to, worth, true), ConversionPaid(s, k));
  }

  lemma OrderCancelledQuiet(s: State, i: nat)
    requires InOrder(s) && i in s.orders
    ensures Quiet(s, OrderCancelled(s, i))
  {
    var o := s.orders[i];
    assert Sound(s.orders[i]);
    hide GapsMoved, InOrder, Adjusted, Quiet;
    AdjustedQuiet(s, o.seller, o.forSale, o.sellsSteem);
    QuietRecords(s, Adjusted(s, o.seller, o.forSale, o.sellsSteem), OrderCancelled(s, i));
  }

  lemma OrderOpenedQuiet(s: State, o: Order)
    requires InOrder(s) && Sound(o) && o.seller in s.holders && o.forSale <= Balance(s.holders[o.seller], o.sellsSteem)
    ensures Quiet(s, OrderOpened(s, o))
  {
    hide GapsMoved, InOrder, Adjusted, Quiet;
    AdjustedQuiet(s, o.seller, -o.forSale, o.sellsSteem);
    QuietRecords(s, Adjusted(s, o.seller, -o.forSale, o.sellsSteem), OrderOpened(s, o));
  }

  lemma OrderFilledSame(s: State, i: nat, pays: int, receives: int)
    requires InOrder(s) && i in s.orders && 0 < pays <= s.orders[i].forSale && receives >= 0
    ensures var r := OrderFilled(s, i, pays, receives); SamePool(s, r) && SameRequests(s, r)
  {
    hide GapsMoved, ToReceive, SbdInterest, Settled;
    assert Sound(s.orders[i]);
  }

  lemma OrderFilledQuiet(s: State, i: nat, pays: int, receives: int)
    requires InOrder(s) && i in s.orders && 0 < pays <= s.orders[i].forSale && receives >= 0
    ensures Quiet(s, OrderFilled(s, i, pays, receives))
  {
    hide InOrder, OrderFilled, Quiet;
    OrderFilledSame(s, i, pays, receives);
    QuietIf(s, OrderFilled(s, i, pays, receives));
  }

  lemma MatchedQuiet(s: State, n: nat, o: nat)
    requires InOrder(s) && n in s.orders && o in s.orders && Crosses(s.orders[n], s.orders[o])
    ensures Quiet(s, Matched(s, n, o))
  {
    hide SteemGap, SbdGap, VestGap, InOrder, OrderFilled, Quiet;
    assert Sound(s.orders[n]) && Sound(s.orders[o]) by { BothSound(s, n, o); }
    MatchIsFair(s.orders[n], s.orders[o]);
    var t := Match(s.orders[n], s.orders[o]);
    OrderFilledKeeps(s, n, t.newPays, t.oldPays);
    OrderFilledQuiet(s, n, t.newPays, t.oldPays);
    var s1 := OrderFilled(s, n, t.newPays, t.oldPays);
    OrderFilledQuiet(s1, o, t.oldPays, t.newPays);
    QuietTwice(s, s1, OrderFilled(s1, o, t.oldPays, t.newPays));
  }

  // ----- vesting and rewards change the price, but no requests -----

  lemma VestingCounted(s: State, a: Name, tokens: nat)
    requires InOrder(s) && a in s.holders
    ensures CountsKept(s, VestingCreated(s, a, tokens))
  {
    hide GapsMoved, InOrder, CountsKept, SharesFor;
    SameCounted(s, VestingCreated(s, a, tokens));
  }

  lemma RevestedCounted(s: State, a: Name, vests: int, steem: int)
    requires InOrder(s) && a in s.holders && steem >= 0 && (vests >= 0 || s.holders[a].vests + vests >= 0)
    ensures CountsKept(s, Revested(s, a, vests, steem))
  {
    hide GapsMoved, InOrder, CountsKept;
    SameCounted(s, Revested(s, a, vests, steem));
  }

  lemma CashedOutCounted(s: State, a: Name, vests: int)
    requires InOrder(s) && a in s.holders && 0 <= vests <= s.totalVests
    ensures CountsKept(s, CashedOut(s, a, vests))
  {
    CashOutWithinFund(vests, s.totalVests, s.vestFund);
    hide GapsMoved, InOrder, CountsKept, SteemFor;
    SameCounted(s, CashedOut(s, a, vests));
  }

  lemma FundsCounted(s: State, r: State)
    requires InOrder(s) && r.holders == s.holders && r.withdrawals == s.withdrawals
    ensures CountsKept(s, r)
  {
    hide InOrder;
    SameCounted(s, r);
  }
}
