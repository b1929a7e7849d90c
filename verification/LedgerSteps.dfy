/** The elementary changes from which every ledger operation is made. Each keeps the ledger in order
    and says by how much it moves the three gaps between recorded supply and holdings. */
module LedgerSteps {
  import opened Common
  import opened Arith
  import opened MapSums
  import opened Market
  import opened LedgerState

  /** Everything except accounts, supplies and the vesting fund is as before. */
  predicate SameRecords(s: State, r: State) {
    && r.orders == s.orders && r.nextOrder == s.nextOrder && r.escrows == s.escrows
    && r.withdrawals == s.withdrawals && r.conversions == s.conversions && r.feed == s.feed && r.env == s.env
    && r.rewardFund == s.rewardFund
  }

  /** One account replaced by `h`; `interest` joins the SBD supply. */
  function Replaced(s: State, a: Name, h: Holder, interest: int): (r: State)
    requires InOrder(s) && a in s.holders && HolderOk(h, s.env.now)
    ensures InOrder(r) && r.holders.Keys == s.holders.Keys
    ensures SameRecords(s, r)
    ensures GapsMoved(s, r, s.holders[a].steem + s.holders[a].savings - h.steem - h.savings,
                      s.holders[a].sbd + s.holders[a].savingsSbd - h.sbd - h.savingsSbd + interest,
                      s.holders[a].vests - h.vests)
  {
    HolderChanged(s.holders, a, h);
    HolderChangedOk(s.holders, s.env.now, a, h);
    s.(holders := s.holders[a := h], sbdSupply := s.sbdSupply + interest)
  }

  /** adjust_balance: interest that has fallen due is paid on the way and added to the supply. */
  function Adjusted(s: State, a: Name, delta: int, inSteem: bool): (r: State)
    requires InOrder(s) && a in s.holders && (delta >= 0 || Balance(s.holders[a], inSteem) + delta >= 0)
    ensures InOrder(r) && r.holders.Keys == s.holders.Keys
    ensures SameRecords(s, r)
    ensures GapsMoved(s, r, if inSteem then -delta else 0, if inSteem then 0 else -delta, 0)
  {
    hide SteemGap, SbdGap, VestGap, Replaced;
    assert HolderOk(s.holders[a], s.env.now);
    AdjustOk(s.holders[a], delta, inSteem, s.env);
    Replaced(s, a, Adjust(s.holders[a], delta, inSteem, s.env), if inSteem then 0 else SbdInterest(s.holders[a], s.env))
  }

  /** adjust_savings_balance */
  function AdjustedSavings(s: State, a: Name, delta: int, inSteem: bool): (r: State)
    requires InOrder(s) && a in s.holders && (delta >= 0 || Saved(s.holders[a], inSteem) + delta >= 0)
    ensures InOrder(r) && r.holders.Keys == s.holders.Keys
    ensures SameRecords(s, r)
    ensures GapsMoved(s, r, if inSteem then -delta else 0, if inSteem then 0 else -delta, 0)
  {
    hide SteemGap, SbdGap, VestGap, Replaced;
    assert HolderOk(s.holders[a], s.env.now);
    AdjustOk(s.holders[a], delta, inSteem, s.env);
    Replaced(s, a, AdjustSaved(s.holders[a], delta, inSteem, s.env),
             if inSteem then 0 else SavingsInterest(s.holders[a], s.env))
  }

  /** savings_withdraw_requests up or down. */
  function Recounted(s: State, a: Name, change: int): (r: State)
    requires InOrder(s) && a in s.holders
    ensures InOrder(r) && r.holders.Keys == s.holders.Keys && GapsMoved(s, r, 0, 0, 0) && SameRecords(s, r)
  {
    hide SteemGap, SbdGap, VestGap, Replaced;
    assert HolderOk(s.holders[a], s.env.now);
    Replaced(s, a, s.holders[a].(requests := s.holders[a].requests + change), 0)
  }

  /** Shares and liquid balance of `a` changed directly, as the vesting code does. */
  function Revested(s: State, a: Name, vests: int, steem: int): (r: State)
    requires InOrder(s) && a in s.holders && steem >= 0 && (vests >= 0 || s.holders[a].vests + vests >= 0)
    ensures InOrder(r) && r.holders.Keys == s.holders.Keys && GapsMoved(s, r, -steem, 0, -vests) && SameRecords(s, r)
  {
    hide SteemGap, SbdGap, VestGap, Replaced;
    assert HolderOk(s.holders[a], s.env.now);
    Replaced(s, a, s.holders[a].(vests := s.holders[a].vests + vests, steem := s.holders[a].steem + steem), 0)
  }

  /** create_vesting: tokens join the fund, shares are issued at the price before the deposit. */
  function VestingCreated(s: State, a: Name, steem: int): (r: State)
    requires InOrder(s) && a in s.holders && steem >= 0
    ensures InOrder(r) && r.holders.Keys == s.holders.Keys && GapsMoved(s, r, -steem, 0, 0) && SameRecords(s, r)
  {
    var vests := SharesFor(steem, s.totalVests, s.vestFund);
    NewSharesNonNegative(steem, s.totalVests, s.vestFund);
    assert steem == 0 ==> vests == 0;
    assert HolderOk(s.holders[a], s.env.now);
    Revested(s, a, vests, 0).(vestFund := s.vestFund + steem, totalVests := s.totalVests + vests)
  }

  /** Shares cashed out: they leave the total and their value leaves the fund. */
  function FundDrawn(s: State, vests: int): (r: State)
    requires InOrder(s) && 0 <= vests <= s.totalVests
    ensures InOrder(r) && GapsMoved(s, r, SteemFor(vests, s.totalVests, s.vestFund), 0, -vests)
  {
    CashOutWithinFund(vests, s.totalVests, s.vestFund);
    s.(vestFund := s.vestFund - SteemFor(vests, s.totalVests, s.vestFund), totalVests := s.totalVests - vests)
  }

  // ----- accounts -----

  /** An account that has just been created. */
  const NEWCOMER := Holder(0, 0, 0, 0, 0, Clock(0, 0, 0), Clock(0, 0, 0), 0)

  function AccountAdded(s: State, a: Name): (r: State)
    requires InOrder(s) && a !in s.holders && s.env.now >= 0
    ensures InOrder(r) && GapsMoved(s, r, 0, 0, 0) && SameRecords(s, r) && r.holders == s.holders[a := NEWCOMER]
  {
    EmptyPurse(s.holders, a);
    NewcomerOk(s, a);
    s.(holders := s.holders[a := NEWCOMER])
  }

  lemma EmptyPurse(holders: Holders, a: Name)
    requires a !in holders
    ensures Sum(Liquid(holders[a := NEWCOMER])) == Sum(Liquid(holders))
    ensures Sum(Dollars(holders[a := NEWCOMER])) == Sum(Dollars(holders))
    ensures Sum(Shares(holders[a := NEWCOMER])) == Sum(Shares(holders))
  {
    SumUpdate(Liquid(holders), a, 0);
    assert Liquid(holders[a := NEWCOMER]) == Liquid(holders)[a := 0];
    SumUpdate(Dollars(holders), a, 0);
    assert Dollars(holders[a := NEWCOMER]) == Dollars(holders)[a := 0];
    SumUpdate(Shares(holders), a, 0);
    assert Shares(holders[a := NEWCOMER]) == Shares(holders)[a := 0];
  }

  lemma NewcomerOk(s: State, a: Name)
    requires InOrder(s) && a !in s.holders && s.env.now >= 0
    ensures InOrder(s.(holders := s.holders[a := NEWCOMER]))
  {
    var holders := s.holders[a := NEWCOMER];
    forall b | b in holders ensures HolderOk(holders[b], s.env.now) {
      assert b != a ==> HolderOk(s.holders[b], s.env.now);
    }
    assert HoldersOk(holders, s.env.now);
    MoreNames(s, s.holders.Keys, holders.Keys);
  }

  /** Records stay in order when there are more accounts. */
  lemma MoreNames(s: State, names: set<Name>, more: set<Name>)
    requires EscrowsOk(s.escrows, names) && BookOk(s.orders, names, s.nextOrder) && names <= more
    requires PendingsOk(s.withdrawals, names) && PendingsOk(s.conversions, names)
    ensures EscrowsOk(s.escrows, more) && BookOk(s.orders, more, s.nextOrder)
    ensures PendingsOk(s.withdrawals, more) && PendingsOk(s.conversions, more)
  {
    forall k | k in s.escrows ensures k.0 in more && s.escrows[k].to in more && s.escrows[k].agent in more {
      assert EscrowOk(s.escrows[k]);
    }
    forall i | i in s.orders ensures s.orders[i].seller in more {
      assert Sound(s.orders[i]);
    }
    forall k | k in s.withdrawals ensures PendingOk(k, s.withdrawals[k], more) {
      assert PendingOk(k, s.withdrawals[k], names);
    }
    forall k | k in s.conversions ensures PendingOk(k, s.conversions[k], more) {
      assert PendingOk(k, s.conversions[k], names);
    }
  }

  // ----- genesis -----

  /** The state before the first block: one account has the whole supply. */
  function Genesis(names: set<Name>, miner: Name, supply: nat, env: Env, feed: Feed): State {
    var accounts := names + {miner};
    State(map a | a in accounts :: NEWCOMER.(steem := if a == miner then supply else 0),
          map[], 0, map[], map[], map[], supply, 0, 0, 0, 0, feed, env)
  }

  lemma GenesisOk(names: set<Name>, miner: Name, supply: nat, env: Env, feed: Feed)
    requires env.now >= 0 && FeedOk(feed)
    ensures var s := Genesis(names, miner, supply, env, feed);
            InOrder(s) && Conserved(s) && Uncrossed(s.orders)
  {
    var s := Genesis(names, miner, supply, env, feed);
    var zeros: map<Name, int> := map a | a in s.holders :: 0;
    SumOfZeros(zeros);
    SumUpdate(zeros, miner, supply);
    assert Liquid(s.holders) == zeros[miner := supply];
    assert Dollars(s.holders) == zeros && Shares(s.holders) == zeros;
    assert SellingSteem(map[]) == map[] && SellingSbd(map[]) == map[];
    assert EscrowedSteem(map[]) == map[] && EscrowedSbd(map[]) == map[];
    assert PendingSteem(map[]) == map[] && PendingSbd(map[]) == map[];
  }

  // ----- records -----

  function WithdrawalPut(s: State, k: Key, p: Pending): (r: State)
    requires InOrder(s) && k !in s.withdrawals && p.amount > 0 && k.0 in s.holders && p.to in s.holders
    ensures InOrder(r) && r.orders == s.orders && r.holders == s.holders
    ensures GapsMoved(s, r, if p.inSteem then -p.amount else 0, if p.inSteem then 0 else -p.amount, 0)
  {
    PendingPut(s.withdrawals, k, p);
    PendingPutOk(s.withdrawals, s.holders.Keys, k, p);
    s.(withdrawals := s.withdrawals[k := p])
  }

  function WithdrawalGone(s: State, k: Key): (r: State)
    requires InOrder(s) && k in s.withdrawals
    ensures InOrder(r)
    ensures var p := s.withdrawals[k];
            GapsMoved(s, r, if p.inSteem then p.amount else 0, if p.inSteem then 0 else p.amount, 0)
  {
    PendingGone(s.withdrawals, k);
    PendingGoneOk(s.withdrawals, s.holders.Keys, k);
    s.(withdrawals := s.withdrawals - {k})
  }

  function ConversionPut(s: State, k: Key, p: Pending): (r: State)
    requires InOrder(s) && k !in s.conversions && p.amount > 0 && k.0 in s.holders && p.to in s.holders && !p.inSteem
    ensures InOrder(r) && GapsMoved(s, r, 0, -p.amount, 0)
  {
    PendingPut(s.conversions, k, p);
    PendingPutOk(s.conversions, s.holders.Keys, k, p);
    s.(conversions := s.conversions[k := p])
  }

  function ConversionGone(s: State, k: Key): (r: State)
    requires InOrder(s) && k in s.conversions
    ensures InOrder(r) && GapsMoved(s, r, 0, s.conversions[k].amount, 0)
  {
    PendingGone(s.conversions, k);
    PendingGoneOk(s.conversions, s.holders.Keys, k);
    s.(conversions := s.conversions - {k})
  }

  function EscrowSet(s: State, k: Key, e: Escrow): (r: State)
    requires InOrder(s) && EscrowOk(e) && k.0 in s.holders && e.to in s.holders && e.agent in s.holders
    ensures InOrder(r) && r.orders == s.orders && r.holders == s.holders
    ensures GapsMoved(s, r, (if k in s.escrows then SteemIn(s.escrows[k]) else 0) - SteemIn(e),
                      (if k in s.escrows then SbdIn(s.escrows[k]) else 0) - SbdIn(e), 0)
  {
    EscrowPut(s.escrows, k, e);
    EscrowPutOk(s.escrows, s.holders.Keys, k, e);
    s.(escrows := s.escrows[k := e])
  }

  function EscrowDropped(s: State, k: Key): (r: State)
    requires InOrder(s) && k in s.escrows
    ensures InOrder(r) && GapsMoved(s, r, SteemIn(s.escrows[k]), SbdIn(s.escrows[k]), 0)
  {
    EscrowGone(s.escrows, k);
    EscrowGoneOk(s.escrows, s.holders.Keys, k);
    s.(escrows := s.escrows - {k})
  }

  function SteemOf(o: Order): int {
    if o.sellsSteem then o.forSale else 0
  }

  function SbdOf(o: Order): int {
    if o.sellsSteem then 0 else o.forSale
  }

  function OrderSet(s: State, i: nat, o: Order): (r: State)
    requires InOrder(s) && Sound(o) && o.seller in s.holders && i < s.nextOrder
    ensures InOrder(r) && r.orders == s.orders[i := o] && r.holders == s.holders && r.env == s.env
    ensures r.nextOrder == s.nextOrder
    ensures GapsMoved(s, r, (if i in s.orders then SteemOf(s.orders[i]) else 0) - SteemOf(o),
                      (if i in s.orders then SbdOf(s.orders[i]) else 0) - SbdOf(o), 0)
  {
    OrderPut(s.orders, i, o);
    OrderPutOk(s.orders, s.holders.Keys, s.nextOrder, i, o);
    s.(orders := s.orders[i := o])
  }

  function OrderDropped(s: State, i: nat): (r: State)
    requires InOrder(s) && i in s.orders
    ensures InOrder(r) && r.orders == s.orders - {i} && r.holders == s.holders && r.env == s.env
    ensures r.nextOrder == s.nextOrder
    ensures GapsMoved(s, r, SteemOf(s.orders[i]), SbdOf(s.orders[i]), 0)
  {
    OrderGone(s.orders, i);
    OrderGoneOk(s.orders, s.holders.Keys, s.nextOrder, i);
    s.(orders := s.orders - {i})
  }

  /** The recorded supplies alone are changed. */
  function SuppliesMoved(s: State, steem: int, sbd: int): (r: State)
    requires InOrder(s)
    ensures InOrder(r) && GapsMoved(s, r, steem, sbd, 0) && SameRecords(s, r) && r.holders == s.holders
  {
    s.(steemSupply := s.steemSupply + steem, sbdSupply := s.sbdSupply + sbd)
  }

  /** Tokens issued into the two funds together with the supply that records them. */
  function Issued(s: State, toVesting: int, toRewards: int, pending: int): (r: State)
    requires InOrder(s) && toVesting >= 0 && toRewards >= 0
    ensures InOrder(r) && GapsMoved(s, r, pending, 0, 0)
  {
    s.(vestFund := s.vestFund + toVesting, rewardFund := s.rewardFund + toRewards,
       steemSupply := s.steemSupply + toVesting + toRewards + pending)
  }

  // ----- composite steps -----

  lemma GapsAdd(s: State, t: State, r: State, a: int, b: int, c: int, a': int, b': int, c': int)
    requires GapsMoved(s, t, a, b, c) && GapsMoved(t, r, a', b', c')
    ensures GapsMoved(s, r, a + a', b + b', c + c')
  {
  }

  function ReturnedToSavings(s: State, k: Key): (r: State)
    requires InOrder(s) && k in s.withdrawals
    ensures InOrder(r) && r.holders.Keys == s.holders.Keys && k.0 in r.holders && GapsMoved(s, r, 0, 0, 0)
  {
    hide SteemGap, SbdGap, VestGap, AdjustedSavings;
    var p := s.withdrawals[k];
    assert PendingOk(k, p, s.holders.Keys);
    WithdrawalGone(AdjustedSavings(s, k.0, p.amount, p.inSteem), k)
  }

  function WithdrawalPaid(s: State, k: Key): (r: State)
    requires InOrder(s) && k in s.withdrawals
    ensures InOrder(r) && GapsMoved(s, r, 0, 0, 0)
    ensures r.withdrawals == s.withdrawals - {k} && r.orders == s.orders && r.env == s.env
  {
    hide SteemGap, SbdGap, VestGap, Adjusted, Recounted;
    var p := s.withdrawals[k];
    assert PendingOk(k, p, s.holders.Keys);
    WithdrawalGone(Recounted(Adjusted(s, p.to, p.amount, p.inSteem), k.0, -1), k)
  }

  /** A request to take `p` out of the savings of `from`. */
  function SavingsRequested(s: State, from: Name, id: nat, p: Pending): (r: State)
    requires InOrder(s) && from in s.holders && p.to in s.holders && (from, id) !in s.withdrawals
    requires 0 < p.amount <= Saved(s.holders[from], p.inSteem)
    ensures InOrder(r) && GapsMoved(s, r, 0, 0, 0) && r.orders == s.orders
  {
    hide SteemGap, SbdGap, VestGap, SavingsReserved;
    Recounted(SavingsReserved(s, from, id, p), from, 1)
  }

  function SavingsReserved(s: State, from: Name, id: nat, p: Pending): (r: State)
    requires InOrder(s) && from in s.holders && p.to in s.holders && (from, id) !in s.withdrawals
    requires 0 < p.amount <= Saved(s.holders[from], p.inSteem)
    ensures InOrder(r) && GapsMoved(s, r, 0, 0, 0) && r.orders == s.orders && r.holders.Keys == s.holders.Keys
  {
    hide InOrder, SteemGap, SbdGap, VestGap, GapsMoved, AdjustedSavings, WithdrawalPut;
    var s1 := AdjustedSavings(s, from, -p.amount, p.inSteem);
    var r := WithdrawalPut(s1, (from, id), p);
    GapsAdd(s, s1, r, if p.inSteem then p.amount else 0, if p.inSteem then 0 else p.amount, 0,
            if p.inSteem then -p.amount else 0, if p.inSteem then 0 else -p.amount, 0);
    r
  }

  /** A request to convert `amount` dollars of `owner`. */
  function ConversionRequested(s: State, owner: Name, id: nat, p: Pending): (r: State)
    requires InOrder(s) && owner in s.holders && p.to in s.holders && (owner, id) !in s.conversions
    requires 0 < p.amount <= s.holders[owner].sbd && !p.inSteem
    ensures InOrder(r) && GapsMoved(s, r, 0, 0, 0) && r.orders == s.orders
  {
    hide SteemGap, SbdGap, VestGap, Adjusted;
    ConversionPut(Adjusted(s, owner, -p.amount, false), (owner, id), p)
  }

  /** A due conversion: the request is dropped and tokens are credited; the supplies follow later. */
  function ConversionPaid(s: State, k: Key): (r: State)
    requires InOrder(s) && k in s.conversions && s.feed.Feed?
    ensures InOrder(r)
    ensures GapsMoved(s, r, 0 - Convert(s.conversions[k].amount, s.feed.steem, s.feed.sbd), s.conversions[k].amount, 0)
    ensures r.conversions == s.conversions - {k} && r.orders == s.orders && r.env == s.env && r.feed == s.feed
  {
    hide SteemGap, SbdGap, VestGap, Adjusted;
    var p := s.conversions[k];
    assert PendingOk(k, p, s.holders.Keys);
    ConvertNonNegative(p.amount, s.feed.steem, s.feed.sbd);
    ConversionGone(Adjusted(s, p.to, Convert(p.amount, s.feed.steem, s.feed.sbd), true), k)
  }

  lemma ConvertNonNegative(amount: int, num: int, den: int)
    requires amount >= 0 && num >= 0 && den > 0
    ensures Convert(amount, num, den) >= 0
  {
    FloorAtLeast(amount * num, den, 0);
  }

  ghost predicate StillPending(before: Pendings, after: Pendings, now: int) {
    && (forall k :: k in after ==> k in before && after[k] == before[k])
    && (forall k :: k in before && before[k].due > now ==> k in after)
  }

  /** Exactly the entries that are not yet due are left. */
  ghost predicate Remaining(before: Pendings, after: Pendings, now: int) {
    StillPending(before, after, now) && forall k :: k in after ==> after[k].due > now
  }

  lemma StillPendingWithout(before: Pendings, after: Pendings, now: int, k: Key)
    requires StillPending(before, after, now) && k in after && after[k].due <= now
    ensures StillPending(before, after - {k}, now) && |after - {k}| < |after|
  {
    assert (after - {k}).Keys == after.Keys - {k};
  }

  /** Both balances of `a` reduced. */
  function Spent(s: State, a: Name, steem: int, sbd: int): (r: State)
    requires InOrder(s) && a in s.holders && 0 <= steem <= s.holders[a].steem && 0 <= sbd <= s.holders[a].sbd
    ensures InOrder(r) && r.holders.Keys == s.holders.Keys && GapsMoved(s, r, steem, sbd, 0) && SameRecords(s, r)
  {
    hide SteemGap, SbdGap, VestGap, Adjusted;
    Adjusted(Adjusted(s, a, -steem, true), a, -sbd, false)
  }

  /** Both balances of `a` increased. */
  function PaidBoth(s: State, a: Name, steem: int, sbd: int): (r: State)
    requires InOrder(s) && a in s.holders && 0 <= steem && 0 <= sbd
    ensures InOrder(r) && r.holders.Keys == s.holders.Keys && GapsMoved(s, r, -steem, -sbd, 0) && SameRecords(s, r)
  {
    hide SteemGap, SbdGap, VestGap, Adjusted;
    Adjusted(Adjusted(s, a, steem, true), a, sbd, false)
  }

  /** A new escrow, paid for by its sender. */
  function EscrowOpened(s: State, k: Key, e: Escrow): State
    requires InOrder(s) && EscrowOk(e) && k.0 in s.holders && e.to in s.holders && e.agent in s.holders
    requires k !in s.escrows
    requires SteemIn(e) <= s.holders[k.0].steem && SbdIn(e) <= s.holders[k.0].sbd
  {
    EscrowSet(Spent(s, k.0, SteemIn(e), SbdIn(e)), k, e)
  }

  lemma EscrowOpenedConserves(s: State, k: Key, e: Escrow)
    requires InOrder(s) && EscrowOk(e) && k.0 in s.holders && e.to in s.holders && e.agent in s.holders
    requires k !in s.escrows
    requires SteemIn(e) <= s.holders[k.0].steem && SbdIn(e) <= s.holders[k.0].sbd
    ensures var r := EscrowOpened(s, k, e); InOrder(r) && GapsMoved(s, r, 0, 0, 0) && r.orders == s.orders
  {
    hide InOrder, SteemGap, SbdGap, VestGap, GapsMoved, Spent, EscrowSet;
    var s1 := Spent(s, k.0, SteemIn(e), SbdIn(e));
    var r := EscrowSet(s1, k, e);
    GapsAdd(s, s1, r, SteemIn(e), SbdIn(e), 0, -SteemIn(e), -SbdIn(e), 0);
  }

  function Expired(e: Escrow, now: int): bool {
    !(e.toApproved && e.agentApproved) && e.ratification <= now
  }

  /** Escrow rejected or expired: everything in it, the unpaid fee included, returns to the sender. */
  function EscrowRefunded(s: State, k: Key): (r: State)
    requires InOrder(s) && k in s.escrows
    ensures InOrder(r) && GapsMoved(s, r, 0, 0, 0)
    ensures r.escrows == s.escrows - {k} && r.orders == s.orders && r.env == s.env
  {
    hide SteemGap, SbdGap, VestGap, ContentsPaid;
    var e := s.escrows[k];
    assert EscrowOk(s.escrows[k]);
    EscrowDropped(ContentsPaid(s, k.0, e), k)
  }

  /** What an escrow holds, the fee included, paid to `a`. */
  function ContentsPaid(s: State, a: Name, e: Escrow): (r: State)
    requires InOrder(s) && a in s.holders && e.steem >= 0 && e.sbd >= 0 && e.fee >= 0
    ensures InOrder(r) && GapsMoved(s, r, -SteemIn(e), -SbdIn(e), 0) && SameRecords(s, r)
  {
    hide SteemGap, SbdGap, VestGap, Adjusted, PaidBoth;
    Adjusted(PaidBoth(s, a, e.steem, e.sbd), a, e.fee, e.feeInSteem)
  }

  function EscrowDisputed(s: State, k: Key): (r: State)
    requires InOrder(s) && k in s.escrows
    ensures InOrder(r) && GapsMoved(s, r, 0, 0, 0) && r.orders == s.orders
  {
    assert EscrowOk(s.escrows[k]);
    EscrowSet(s, k, s.escrows[k].(disputed := true))
  }

  predicate ApprovalAllowed(s: State, k: Key, to: Name, agent: Name, who: Name) {
    && k in s.escrows
    && var e := s.escrows[k];
       && e.to == to && e.agent == agent && e.ratification >= s.env.now
       && (who == to ==> !e.toApproved) && (who == agent ==> !e.agentApproved)
  }

  /** One more approval; with both the fee is paid to the agent. */
  function EscrowRatified(s: State, k: Key, who: Name): (r: State)
    requires InOrder(s) && k in s.escrows
    ensures InOrder(r) && GapsMoved(s, r, 0, 0, 0) && r.orders == s.orders
  {
    hide SteemGap, SbdGap, VestGap, FeePaid;
    var e := s.escrows[k];
    assert EscrowOk(e);
    var e' := Approved(e, who);
    if e'.toApproved && e'.agentApproved then FeePaid(s, k, e') else EscrowSet(s, k, e')
  }

  function Approved(e: Escrow, who: Name): Escrow {
    e.(toApproved := e.toApproved || who == e.to, agentApproved := e.agentApproved || who == e.agent)
  }

  function FeePaid(s: State, k: Key, e: Escrow): (r: State)
    requires InOrder(s) && k in s.escrows
    requires SteemIn(e) == SteemIn(s.escrows[k]) && SbdIn(e) == SbdIn(s.escrows[k]) && e.steem >= 0 && e.sbd >= 0
    requires e.fee >= 0
    requires k.0 in s.holders && e.to in s.holders && e.agent in s.holders
    ensures InOrder(r) && GapsMoved(s, r, 0, 0, 0) && r.orders == s.orders
  {
    hide SteemGap, SbdGap, VestGap, Adjusted;
    EscrowSet(Adjusted(s, e.agent, e.fee, e.feeInSteem), k, e.(fee := 0))
  }

  predicate ReleaseAllowed(s: State, k: Key, to: Name, agent: Name, who: Name, receiver: Name, steem: nat, sbd: nat) {
    && k in s.escrows && k.0 in s.holders && receiver in s.holders
    && var e := s.escrows[k];
       && steem <= e.steem && sbd <= e.sbd && e.to == to && e.agent == agent
       && (receiver == k.0 || receiver == e.to) && e.toApproved && e.agentApproved
       && (if e.disputed then who == e.agent
           else && (who == k.0 || who == e.to)
                && (e.expiration > s.env.now ==> if who == k.0 then receiver == e.to else receiver == k.0))
  }

  function EscrowReleased(s: State, k: Key, receiver: Name, steem: nat, sbd: nat): (r: State)
    requires InOrder(s) && k in s.escrows && receiver in s.holders
    requires s.escrows[k].toApproved && s.escrows[k].agentApproved && steem <= s.escrows[k].steem
    requires sbd <= s.escrows[k].sbd
    ensures InOrder(r) && GapsMoved(s, r, 0, 0, 0) && r.orders == s.orders
  {
    hide SteemGap, SbdGap, VestGap, PaidBoth;
    var e := s.escrows[k];
    assert EscrowOk(e);
    var s2 := PaidBoth(s, receiver, steem, sbd);
    var e' := e.(steem := e.steem - steem, sbd := e.sbd - sbd);
    if e'.steem == 0 && e'.sbd == 0 then EscrowDropped(EscrowSet(s2, k, e'), k) else EscrowSet(s2, k, e')
  }

  // ----- the market -----

  /** cancel_order: what is still for sale goes back to the seller. */
  function OrderCancelled(s: State, i: nat): (r: State)
    requires InOrder(s) && i in s.orders
    ensures InOrder(r) && GapsMoved(s, r, 0, 0, 0)
    ensures r.orders == s.orders - {i} && r.env == s.env && r.holders.Keys == s.holders.Keys
    ensures r.nextOrder == s.nextOrder
  {
    hide SteemGap, SbdGap, VestGap, Adjusted;
    var o := s.orders[i];
    assert Sound(s.orders[i]);
    OrderDropped(Adjusted(s, o.seller, o.forSale, o.sellsSteem), i)
  }

  /** What fill_order leaves of an order that pays `pays`: nothing if it is used up or only dust is left. */
  function LeftOver(o: Order, pays: int): Option<Order>
    requires o.base > 0
  {
    if pays == o.forSale || ToReceive(Rest(o, pays)) == 0 then None else Some(Rest(o, pays))
  }

  /** The dust that is refunded when a nearly used up order is closed. */
  function Dust(o: Order, pays: int): int
    requires o.base > 0
  {
    if LeftOver(o, pays).None? then o.forSale - pays else 0
  }

  /** fill_order */
  function OrderFilled(s: State, i: nat, pays: int, receives: int): State
    requires InOrder(s) && i in s.orders && 0 < pays <= s.orders[i].forSale && receives >= 0
  {
    var o := s.orders[i];
    assert Sound(s.orders[i]);
    var s1 := Adjusted(s, o.seller, receives, !o.sellsSteem);
    if pays == o.forSale then OrderDropped(s1, i)
    else
      assert Sound(s1.orders[i]);
      RestIsSoundOrDust(o, pays);
      if ToReceive(Rest(o, pays)) == 0 then OrderDropped(Adjusted(s1, o.seller, o.forSale - pays, o.sellsSteem), i)
      else OrderSet(s1, i, Rest(o, pays))
  }

  ghost predicate Filled(s: State, r: State, i: nat, pays: int)
    requires i in s.orders && s.orders[i].base > 0
  {
    && r.orders == (match LeftOver(s.orders[i], pays) case None => s.orders - {i} case Some(o) => s.orders[i := o])
    && r.env == s.env && r.holders.Keys == s.holders.Keys && r.nextOrder == s.nextOrder
  }

  /** Filling an order takes what it pays out of the book and credits what it receives. */
  lemma OrderFilledKeeps(s: State, i: nat, pays: int, receives: int)
    requires InOrder(s) && i in s.orders && 0 < pays <= s.orders[i].forSale && receives >= 0
    ensures var r := OrderFilled(s, i, pays, receives);
            && InOrder(r) && s.orders[i].base > 0 && Filled(s, r, i, pays)
            && (if s.orders[i].sellsSteem then GapsMoved(s, r, pays, -receives, 0)
                else GapsMoved(s, r, -receives, pays, 0))
  {
    hide SteemGap, SbdGap, VestGap, Adjusted, OrderDropped, OrderSet;
    var o := s.orders[i];
    assert Sound(s.orders[i]);
    var s1 := Adjusted(s, o.seller, receives, !o.sellsSteem);
    if pays == o.forSale {
      var _ := OrderDropped(s1, i);
    } else {
      RestIsSoundOrDust(o, pays);
      assert Sound(s1.orders[i]);
      if ToReceive(Rest(o, pays)) == 0 {
        var s2 := Adjusted(s1, o.seller, o.forSale - pays, o.sellsSteem);
        var _ := OrderDropped(s2, i);
      } else {
        var _ := OrderSet(s1, i, Rest(o, pays));
      }
    }
  }

  /** match: both orders are filled by the trade they agree on. */
  function Matched(s: State, n: nat, o: nat): State
    requires InOrder(s) && n in s.orders && o in s.orders && Crosses(s.orders[n], s.orders[o])
  {
    assert Sound(s.orders[n]) && Sound(s.orders[o]);
    MatchIsFair(s.orders[n], s.orders[o]);
    var t := Match(s.orders[n], s.orders[o]);
    OrderFilledKeeps(s, n, t.newPays, t.oldPays);
    OrderFilled(OrderFilled(s, n, t.newPays, t.oldPays), o, t.oldPays, t.newPays)
  }

  /** A match conserves both assets, touches only the two orders, and closes at least one of them. */
  lemma MatchedKeeps(s: State, n: nat, o: nat)
    requires InOrder(s) && n in s.orders && o in s.orders && Crosses(s.orders[n], s.orders[o])
    ensures var r := Matched(s, n, o);
            && InOrder(r) && GapsMoved(s, r, 0, 0, 0) && Shrunk(s.orders, r.orders)
            && r.env == s.env && r.holders.Keys == s.holders.Keys && r.nextOrder == s.nextOrder
            && (n !in r.orders || o !in r.orders)
            && forall i :: i in s.orders && i != n && i != o ==> i in r.orders
  {
    hide SteemGap, SbdGap, VestGap, InOrder, OrderFilled;
    var a, b := s.orders[n], s.orders[o];
    assert Sound(s.orders[n]) && Sound(s.orders[o]) by { BothSound(s, n, o); }
    MatchIsFair(a, b);
    var t := Match(a, b);
    OrderFilledKeeps(s, n, t.newPays, t.oldPays);
    var s1 := OrderFilled(s, n, t.newPays, t.oldPays);
    assert s1.orders[o] == s.orders[o];
    OrderFilledKeeps(s1, o, t.oldPays, t.newPays);
  }

  lemma BothSound(s: State, n: nat, o: nat)
    requires InOrder(s) && n in s.orders && o in s.orders
    ensures Sound(s.orders[n]) && Sound(s.orders[o])
  {
  }

  /** An account never holds more than the recorded supply. */
  lemma BalanceWithinSupply(s: State, a: Name)
    requires InOrder(s) && Conserved(s) && a in s.holders
    ensures s.holders[a].steem <= s.steemSupply && s.holders[a].sbd <= s.sbdSupply && s.holders[a].vests <= s.totalVests
  {
    HoldingsNonNegative(s);
    assert HolderOk(s.holders[a], s.env.now);
    assert Liquid(s.holders)[a] == s.holders[a].steem + s.holders[a].savings;
    assert Dollars(s.holders)[a] == s.holders[a].sbd + s.holders[a].savingsSbd;
    assert Shares(s.holders)[a] == s.holders[a].vests;
    SumAtLeast(Liquid(s.holders), a);
    SumAtLeast(Dollars(s.holders), a);
    SumAtLeast(Shares(s.holders), a);
  }

  /** Nor does an order offer more. */
  lemma OfferWithinSupply(s: State, i: nat)
    requires InOrder(s) && Conserved(s) && i in s.orders
    ensures s.orders[i].forSale <= if s.orders[i].sellsSteem then s.steemSupply else s.sbdSupply
  {
    HoldingsNonNegative(s);
    SumNonNegative(Liquid(s.holders));
    SumNonNegative(Dollars(s.holders));
    forall j | j in s.orders ensures SellingSteem(s.orders)[j] >= 0 && SellingSbd(s.orders)[j] >= 0 {
      assert Sound(s.orders[j]);
    }
    SumAtLeast(SellingSteem(s.orders), i);
    SumAtLeast(SellingSbd(s.orders), i);
  }

  /** As long as no supply exceeds the maximum, no two orders cross. */
  lemma NothingCrossesBelowMax(s: State)
    requires InOrder(s) && Conserved(s) && Uncrossed(s.orders) && s.steemSupply <= MAX_SUPPLY
    requires s.sbdSupply <= MAX_SUPPLY
    ensures NothingCrosses(s.orders)
  {
    forall i | i in s.orders ensures Sound(s.orders[i]) && s.orders[i].forSale <= MAX_SUPPLY {
      OfferWithinSupply(s, i);
      BothSound(s, i, i);
    }
    hide InOrder, Conserved;
    UncrossedBelowMax(s.orders);
  }

  lemma HoldingsNonNegative(s: State)
    requires InOrder(s)
    ensures (forall a :: a in s.holders ==>
               Liquid(s.holders)[a] >= 0 && Dollars(s.holders)[a] >= 0 && Shares(s.holders)[a] >= 0)
    ensures Sum(SellingSteem(s.orders)) >= 0 && Sum(SellingSbd(s.orders)) >= 0
    ensures Sum(EscrowedSteem(s.escrows)) >= 0 && Sum(EscrowedSbd(s.escrows)) >= 0
    ensures Sum(PendingSteem(s.withdrawals)) >= 0 && Sum(PendingSbd(s.withdrawals)) >= 0
    ensures Sum(PendingSbd(s.conversions)) >= 0
  {
    forall a | a in s.holders
      ensures Liquid(s.holders)[a] >= 0 && Dollars(s.holders)[a] >= 0 && Shares(s.holders)[a] >= 0
    {
      assert HolderOk(s.holders[a], s.env.now);
    }
    BookNonNegative(s.orders, s.holders.Keys, s.nextOrder);
    EscrowsNonNegative(s.escrows, s.holders.Keys);
    PendingsNonNegative(s.withdrawals, s.holders.Keys);
    PendingsNonNegative(s.conversions, s.holders.Keys);
  }

  lemma BookNonNegative(book: Book, names: set<Name>, next: nat)
    requires BookOk(book, names, next)
    ensures Sum(SellingSteem(book)) >= 0 && Sum(SellingSbd(book)) >= 0
  {
    forall i | i in book ensures book[i].forSale >= 0 { assert Sound(book[i]); }
    SumNonNegative(SellingSteem(book));
    SumNonNegative(SellingSbd(book));
  }

  lemma EscrowsNonNegative(escrows: Escrows, names: set<Name>)
    requires EscrowsOk(escrows, names)
    ensures Sum(EscrowedSteem(escrows)) >= 0 && Sum(EscrowedSbd(escrows)) >= 0
  {
    forall k | k in escrows ensures SteemIn(escrows[k]) >= 0 && SbdIn(escrows[k]) >= 0 { assert EscrowOk(escrows[k]); }
    SumNonNegative(EscrowedSteem(escrows));
    SumNonNegative(EscrowedSbd(escrows));
  }

  lemma PendingsNonNegative(pendings: Pendings, names: set<Name>)
    requires PendingsOk(pendings, names)
    ensures Sum(PendingSteem(pendings)) >= 0 && Sum(PendingSbd(pendings)) >= 0
  {
    forall k | k in pendings ensures pendings[k].amount >= 0 { assert PendingOk(k, pendings[k], names); }
    SumNonNegative(PendingSteem(pendings));
    SumNonNegative(PendingSbd(pendings));
  }

  /** A new order joins the book, paid for from its seller's balance. */
  function OrderOpened(s: State, o: Order): State
    requires InOrder(s) && Sound(o) && o.seller in s.holders && o.forSale <= Balance(s.holders[o.seller], o.sellsSteem)
  {
    OrderSet(Numbered(Adjusted(s, o.seller, -o.forSale, o.sellsSteem)), s.nextOrder, o)
  }

  lemma OrderOpenedConserves(s: State, o: Order)
    requires InOrder(s) && Sound(o) && o.seller in s.holders && o.forSale <= Balance(s.holders[o.seller], o.sellsSteem)
    ensures s.nextOrder !in s.orders
    ensures var r := OrderOpened(s, o);
            && InOrder(r) && GapsMoved(s, r, 0, 0, 0)
            && r.orders == s.orders[s.nextOrder := o] && r.nextOrder == s.nextOrder + 1
            && r.env == s.env && r.holders.Keys == s.holders.Keys
  {
    hide InOrder, SteemGap, SbdGap, VestGap, GapsMoved, Adjusted, Numbered, OrderSet;
    NextIsFree(s);
    var s1 := Adjusted(s, o.seller, -o.forSale, o.sellsSteem);
    var s2 := Numbered(s1);
    var r := OrderSet(s2, s.nextOrder, o);
    GapsAdd(s, s1, s2, SteemOf(o), SbdOf(o), 0, 0, 0, 0);
    GapsAdd(s, s2, r, SteemOf(o), SbdOf(o), 0, -SteemOf(o), -SbdOf(o), 0);
  }

  lemma NextIsFree(s: State)
    requires InOrder(s)
    ensures s.nextOrder !in s.orders
  {
    forall i | i in s.orders ensures i < s.nextOrder {
      assert Sound(s.orders[i]);
    }
  }

  function Numbered(s: State): (r: State)
    requires InOrder(s)
    ensures InOrder(r) && GapsMoved(s, r, 0, 0, 0) && r.orders == s.orders && r.holders == s.holders && r.env == s.env
    ensures r.nextOrder == s.nextOrder + 1
  {
    MoreIdsOk(s.orders, s.holders.Keys, s.nextOrder);
    s.(nextOrder := s.nextOrder + 1)
  }

  lemma MoreIdsOk(book: Book, names: set<Name>, next: nat)
    requires BookOk(book, names, next)
    ensures BookOk(book, names, next + 1)
  {
    forall i | i in book ensures Sound(book[i]) && book[i].seller in names && i < next + 1 {
    }
  }

  // ----- vesting -----

  /** Shares of a withdrawal paid out to `a` at the current share price; they still have to be taken
      from their owner. */
  function CashedOut(s: State, a: Name, vests: int): (r: State)
    requires InOrder(s) && a in s.holders && 0 <= vests <= s.totalVests
    ensures InOrder(r) && GapsMoved(s, r, 0, 0, -vests) && SameRecords(s, r)
    ensures r.totalVests == s.totalVests - vests && r.holders.Keys == s.holders.Keys
    ensures forall b :: b in s.holders ==> r.holders[b].vests == s.holders[b].vests
  {
    hide SteemGap, SbdGap, VestGap;
    CashOutWithinFund(vests, s.totalVests, s.vestFund);
    Revested(FundDrawn(s, vests), a, 0, SteemFor(vests, s.totalVests, s.vestFund))
  }

  /** create_sbd: part of a reward is turned into dollars at the feed price, the rest stays liquid. */
  function SbdCreated(s: State, a: Name, steem: int, printRate: nat): State
    requires InOrder(s) && a in s.holders && steem >= 0 && printRate <= HUNDRED_PERCENT
  {
    if steem == 0 then s
    else if s.feed.NoFeed? then Adjusted(s, a, steem, true)
    else
      var toSbd := printRate * steem / HUNDRED_PERCENT;
      PrintWithin(steem, printRate);
      ConvertNonNegative(toSbd, s.feed.sbd, s.feed.steem);
      var sbd := Convert(toSbd, s.feed.sbd, s.feed.steem);
      SuppliesMoved(Adjusted(Adjusted(s, a, sbd, false), a, steem - toSbd, true), -toSbd, sbd)
  }

  lemma PrintWithin(steem: int, printRate: nat)
    requires steem >= 0 && printRate <= HUNDRED_PERCENT
    ensures 0 <= printRate * steem / HUNDRED_PERCENT <= steem
  {
    MulMono(printRate, HUNDRED_PERCENT, steem);
    MulMono(0, printRate, steem);
  }

  /** However the reward is split, exactly `steem` pending tokens are used up. */
  lemma SbdCreatedConserves(s: State, a: Name, steem: int, printRate: nat)
    requires InOrder(s) && a in s.holders && steem >= 0 && printRate <= HUNDRED_PERCENT
    ensures var r := SbdCreated(s, a, steem, printRate);
            && InOrder(r) && GapsMoved(s, r, -steem, 0, 0) && SameRecords(s, r) && r.holders.Keys == s.holders.Keys
  {
    hide SteemGap, SbdGap, VestGap, Adjusted, SuppliesMoved;
    if steem != 0 && s.feed.Feed? {
      var toSbd := printRate * steem / HUNDRED_PERCENT;
      PrintWithin(steem, printRate);
      ConvertNonNegative(toSbd, s.feed.sbd, s.feed.steem);
      var sbd := Convert(toSbd, s.feed.sbd, s.feed.steem);
      var s1 := Adjusted(s, a, sbd, false);
      var s2 := Adjusted(s1, a, steem - toSbd, true);
      var _ := SuppliesMoved(s2, -toSbd, sbd);
    }
  }

  /** Tokens moved between the reward fund and pending payouts. */
  function RewardsMoved(s: State, amount: int): (r: State)
    requires InOrder(s) && s.rewardFund + amount >= 0
    ensures InOrder(r) && GapsMoved(s, r, -amount, 0, 0)
  {
    s.(rewardFund := s.rewardFund + amount)
  }
}
