/** The ledger as the chain updates it in place: transfers, savings, escrows, conversions, the market,
    power-downs, inflation and burns. The recorded supplies always equal what is held. */
module Ledger {
  import opened Common
  import opened Inflation
  import opened Market
  import opened LedgerState
  import opened LedgerSteps
  import opened LedgerPayments
  import opened SharePrice
  import opened Requests
  import opened QuietSteps
  import opened Trades
  import opened VestingRoutes

  /** STEEMIT_SAVINGS_WITHDRAW_TIME, three days */
  const SAVINGS_DELAY := 259_200

  /** STEEMIT_CONVERSION_DELAY, 84 hours */
  const CONVERSION_DELAY := 302_400

  class Ledger {
    var db: State

    ghost predicate Valid()
      reads this
    {
      InOrder(db) && Uncrossed(db.orders) && Conserved(db) && Counted(db)
    }

    /** init_genesis */
    constructor (names: set<Name>, miner: Name, supply: nat, env: Env, feed: Feed)
      requires env.now >= 0 && FeedOk(feed)
      ensures Valid() && db == Genesis(names, miner, supply, env, feed)
    {
      GenesisOk(names, miner, supply, env, feed);
      GenesisCounted(names, miner, supply, env, feed);
      db := Genesis(names, miner, supply, env, feed);
    }

    /** account_create: the fee becomes the first shares of the new account. */
    method CreateAccount(creator: Name, a: Name, fee: nat, minFee: nat) returns (ok: bool)
      requires Valid() && db.env.now >= 0
      modifies this
      ensures Valid()
      ensures ok <==>
                creator in old(db).holders && minFee <= fee <= old(db).holders[creator].steem && a !in old(db).holders
      ensures db == if !ok then old(db)
                    else var s := AccountAdded(Adjusted(old(db), creator, 0 - fee, true), a);
                         if fee > 0 then VestingCreated(s, a, fee) else s
      ensures PriceKept(old(db), db)
    {
      hide Counted, InOrder, Conserved, GapsMoved, AccountAdded, Adjusted, VestingCreated, PriceKept;
      SamePoolKeepsPrice(db, db);
      if creator !in db.holders || db.holders[creator].steem < fee || fee < minFee || a in db.holders {
        return false;
      }
      AdjustedQuiet(db, creator, 0 - fee, true);
      db := Adjusted(db, creator, 0 - fee, true);
      ghost var paid := db;
      AccountAddedQuiet(db, a);
      db := AccountAdded(db, a);
      ghost var added := db;
      SamePoolKeepsPrice(old(db), added);
      GapsAdd(old(db), paid, added, fee, 0, 0, 0, 0, 0);
      if fee > 0 {
        VestingKeepsPrice(old(db), added, a, fee);
        VestingCounted(added, a, fee);
        db := VestingCreated(db, a, fee);
        GapsAdd(old(db), added, db, fee, 0, 0, 0 - fee, 0, 0);
      }
      NoGap(old(db), db);
      ok := true;
    }

    /** A new head block: time goes on, and the median feed and the interest rate may change. */
    method NextBlock(env: Env, feed: Feed)
      requires Valid() && db.env.now <= env.now && FeedOk(feed)
      modifies this
      ensures Valid() && db == old(db).(env := env, feed := feed)
      ensures SamePool(old(db), db)
    {
      hide Counted;
      LaterIsFine(db.holders, db.env.now, env.now);
      FundsCounted(db, db.(env := env, feed := feed));
      db := db.(env := env, feed := feed);
    }

    // ----- transfers and savings -----

    /** transfer */
    method Transfer(from: Name, to: Name, amount: nat, inSteem: bool) returns (ok: bool)
      requires Valid()
      modifies this
      ensures Valid()
      ensures ok <==>
                from in old(db).holders && to in old(db).holders && amount <= Balance(old(db).holders[from], inSteem)
      ensures db == if ok then Adjusted(Adjusted(old(db), from, 0 - amount, inSteem), to, amount, inSteem) else old(db)
      ensures SamePool(old(db), db)
    {
      hide InOrder, Conserved, GapsMoved, Adjusted, Uncrossed, Counted;
      if from !in db.holders || to !in db.holders || Balance(db.holders[from], inSteem) < amount {
        return false;
      }
      AdjustedQuiet(db, from, 0 - amount, inSteem);
      db := Adjusted(db, from, 0 - amount, inSteem);
      ghost var paid := db;
      AdjustedQuiet(db, to, amount, inSteem);
      db := Adjusted(db, to, amount, inSteem);
      GapsAdd(old(db), paid, db, if inSteem then amount else 0, if inSteem then 0 else amount, 0,
              if inSteem then 0 - amount else 0, if inSteem then 0 else 0 - amount, 0);
      NoGap(old(db), db);
      ok := true;
    }

    /** transfer_to_vesting */
    method TransferToVesting(from: Name, to: Name, amount: nat) returns (ok: bool)
      requires Valid()
      modifies this
      ensures Valid()
      ensures ok <==> from in old(db).holders && to in old(db).holders && amount <= old(db).holders[from].steem
      ensures db == if ok then VestingCreated(Adjusted(old(db), from, 0 - amount, true), to, amount) else old(db)
      ensures PriceKept(old(db), db)
    {
      hide Counted, InOrder, Conserved, GapsMoved, Adjusted, VestingCreated, PriceKept;
      SamePoolKeepsPrice(db, db);
      if from !in db.holders || to !in db.holders || db.holders[from].steem < amount {
        return false;
      }
      AdjustedQuiet(db, from, 0 - amount, true);
      db := Adjusted(db, from, 0 - amount, true);
      ghost var paid := db;
      VestingKeepsPrice(old(db), paid, to, amount);
      VestingCounted(paid, to, amount);
      db := VestingCreated(db, to, amount);
      GapsAdd(old(db), paid, db, amount, 0, 0, 0 - amount, 0, 0);
      NoGap(old(db), db);
      ok := true;
    }

    /** transfer_to_savings */
    method TransferToSavings(from: Name, to: Name, amount: nat, inSteem: bool) returns (ok: bool)
      requires Valid()
      modifies this
      ensures Valid()
      ensures ok <==>
                from in old(db).holders && to in old(db).holders && amount <= Balance(old(db).holders[from], inSteem)
      ensures db == if ok then AdjustedSavings(Adjusted(old(db), from, 0 - amount, inSteem), to, amount, inSteem)
                    else old(db)
      ensures SamePool(old(db), db)
    {
      hide InOrder, Conserved, GapsMoved, Adjusted, AdjustedSavings, Uncrossed, Counted;
      if from !in db.holders || to !in db.holders || Balance(db.holders[from], inSteem) < amount {
        return false;
      }
      AdjustedQuiet(db, from, 0 - amount, inSteem);
      db := Adjusted(db, from, 0 - amount, inSteem);
      ghost var paid := db;
      AdjustedSavingsQuiet(db, to, amount, inSteem);
      db := AdjustedSavings(db, to, amount, inSteem);
      GapsAdd(old(db), paid, db, if inSteem then amount else 0, if inSteem then 0 else amount, 0,
              if inSteem then 0 - amount else 0, if inSteem then 0 else 0 - amount, 0);
      NoGap(old(db), db);
      ok := true;
    }

    /** transfer_from_savings */
    method TransferFromSavings(from: Name, to: Name, id: nat, amount: nat, inSteem: bool) returns (ok: bool)
      requires Valid() && amount > 0
      modifies this
      ensures Valid()
      ensures ok <==>
                && from in old(db).holders && to in old(db).holders && old(db).holders[from].requests < REQUEST_LIMIT
                      && amount <= Saved(old(db).holders[from], inSteem) && (from, id) !in old(db).withdrawals
      ensures !ok ==> db == old(db)
      ensures ok ==>
                db == SavingsRequested(old(db), from, id, Pending(to, amount, inSteem, old(db).env.now + SAVINGS_DELAY))
      ensures SamePool(old(db), db)
    {
      hide InOrder, Conserved, GapsMoved, SavingsRequested, Uncrossed, Counted;
      if from !in db.holders || to !in db.holders || db.holders[from].requests >= REQUEST_LIMIT
         || Saved(db.holders[from], inSteem) < amount || (from, id) in db.withdrawals {
        return false;
      }
      RequestQuiet(db, from, id, Pending(to, amount, inSteem, db.env.now + SAVINGS_DELAY));
      db := SavingsRequested(db, from, id, Pending(to, amount, inSteem, db.env.now + SAVINGS_DELAY));
      NoGap(old(db), db);
      ok := true;
    }

    /** cancel_transfer_from_savings */
    method CancelFromSavings(from: Name, id: nat) returns (ok: bool)
      requires Valid()
      modifies this
      ensures Valid()
      ensures ok <==> (from, id) in old(db).withdrawals
      ensures !ok ==> db == old(db)
      ensures ok ==> db == Recounted(ReturnedToSavings(old(db), (from, id)), from, -1)
      ensures SamePool(old(db), db)
    {
      hide Counted;
      if (from, id) !in db.withdrawals {
        return false;
      }
      assert PendingOk((from, id), db.withdrawals[(from, id)], db.holders.Keys);
      CancelQuiet(db, (from, id));
      db := ReturnedToSavings(db, (from, id));
      db := Recounted(db, from, -1);
      ok := true;
    }

    /** process_savings_withdraws: whatever is due is paid out to its targets, and nothing else. */
    method ProcessSavingsWithdraws()
      requires Valid()
      modifies this
      ensures Valid()
      ensures Remaining(old(db).withdrawals, db.withdrawals, db.env.now) && db.env == old(db).env
      ensures PaidOff(db.env, old(db).holders, db.holders, DueSteem(old(db).withdrawals, db.env.now),
                      DueSbd(old(db).withdrawals, db.env.now),
                      DueTo(old(db).withdrawals, db.env.now))
      ensures SamePool(old(db), db)
    {
      hide Counted, SteemGap, SbdGap, VestGap, WithdrawalsSettling, PaidOff;
      SettlingStarts(db);
      while exists k :: k in db.withdrawals && db.withdrawals[k].due <= db.env.now
        invariant Valid() && db.env == old(db).env && SamePool(old(db), db)
        invariant StillPending(old(db).withdrawals, db.withdrawals, db.env.now) && WithdrawalsSettling(old(db), db)
        decreases |db.withdrawals|
      {
        hide WithdrawalPaid;
        var k :| k in db.withdrawals && db.withdrawals[k].due <= db.env.now;
        StillPendingWithout(old(db).withdrawals, db.withdrawals, db.env.now, k);
        WithdrawalSettles(old(db), db, k);
        WithdrawalPaidQuiet(db, k);
        db := WithdrawalPaid(db, k);
      }
      WithdrawalsSettled(old(db), db);
    }

    // ----- escrows -----

    /** escrow_transfer */
    method EscrowTransfer(from: Name, id: nat, e: Escrow) returns (ok: bool)
      requires Valid()
      requires e.steem >= 0 && e.sbd >= 0 && e.fee >= 0 && !e.toApproved && !e.agentApproved && !e.disputed
      modifies this
      ensures Valid()
      ensures ok <==> && from in old(db).holders && e.to in old(db).holders && e.agent in old(db).holders
                      && e.ratification > old(db).env.now && e.expiration > old(db).env.now
                      && SteemIn(e) <= old(db).holders[from].steem && SbdIn(e) <= old(db).holders[from].sbd
                      && (from, id) !in old(db).escrows
      ensures !ok ==> db == old(db)
      ensures ok ==> db == EscrowOpened(old(db), (from, id), e)
      ensures SamePool(old(db), db)
    {
      hide Counted;
      if from !in db.holders || e.to !in db.holders || e.agent !in db.holders
         || e.ratification <= db.env.now || e.expiration <= db.env.now
         || db.holders[from].steem < SteemIn(e) || db.holders[from].sbd < SbdIn(e) || (from, id) in db.escrows {
        return false;
      }
      EscrowOpenedConserves(db, (from, id), e);
      EscrowOpenedQuiet(db, (from, id), e);
      db := EscrowOpened(db, (from, id), e);
      ok := true;
    }

    /** escrow_approve, for a `who` that is the receiver or the agent. */
    method EscrowApprove(from: Name, id: nat, to: Name, agent: Name, who: Name, approve: bool) returns (ok: bool)
      requires Valid() && (who == to || who == agent)
      modifies this
      ensures Valid()
      ensures ok <==> ApprovalAllowed(old(db), (from, id), to, agent, who)
      ensures !ok ==> db == old(db)
      ensures ok && !approve ==> db == EscrowRefunded(old(db), (from, id))
      ensures ok && approve ==> db == EscrowRatified(old(db), (from, id), who)
      ensures SamePool(old(db), db)
    {
      hide Counted;
      if (from, id) !in db.escrows { return false; }
      var e := db.escrows[(from, id)];
      if e.to != to || e.agent != agent || e.ratification < db.env.now { return false; }
      if (who == to && e.toApproved) || (who == agent && e.agentApproved) { return false; }
      if !approve {
        EscrowRefundedQuiet(db, (from, id));
        db := EscrowRefunded(db, (from, id));
      } else {
        EscrowRatifiedQuiet(db, (from, id), who);
        db := EscrowRatified(db, (from, id), who);
      }
      ok := true;
    }

    /** escrow_dispute */
    method EscrowDispute(from: Name, id: nat, to: Name, agent: Name) returns (ok: bool)
      requires Valid()
      modifies this
      ensures Valid()
      ensures ok <==> && (from, id) in old(db).escrows
                      && var e := old(db).escrows[(from, id)];
                         old(db).env.now < e.expiration && e.toApproved && e.agentApproved && !e.disputed
                         && e.to == to && e.agent == agent
      ensures !ok ==> db == old(db)
      ensures ok ==> db == EscrowDisputed(old(db), (from, id))
      ensures ok ==> (from, id) in db.escrows && db.escrows[(from, id)].disputed && db.holders == old(db).holders
      ensures SamePool(old(db), db)
    {
      hide Counted;
      if (from, id) !in db.escrows { return false; }
      var e := db.escrows[(from, id)];
      if db.env.now >= e.expiration || !e.toApproved || !e.agentApproved || e.disputed || e.to != to ||
        e.agent != agent {
        return false;
      }
      EscrowDisputedQuiet(db, (from, id));
      db := EscrowDisputed(db, (from, id));
      ok := true;
    }

    /** escrow_release, for a validated operation: an escrow emptied by it disappears. */
    method EscrowRelease(from: Name, id: nat, to: Name, agent: Name, who: Name, receiver: Name, steem: nat, sbd: nat)
      returns (ok: bool)
      requires Valid()
      modifies this
      ensures Valid()
      ensures ok <==> ReleaseAllowed(old(db), (from, id), to, agent, who, receiver, steem, sbd)
      ensures ok ==> var e := old(db).escrows[(from, id)];
                     && (receiver == from || receiver == to) && (e.disputed ==> who == agent)
                     && (!e.disputed ==> who == from || who == to)
                     && (!e.disputed && old(db).env.now < e.expiration ==> {who, receiver} == {from, to})
      ensures db == if ok then EscrowReleased(old(db), (from, id), receiver, steem, sbd) else old(db)
      ensures SamePool(old(db), db)
    {
      hide Counted, EscrowReleased, SteemGap, SbdGap, VestGap;
      ok := ReleaseAllowed(db, (from, id), to, agent, who, receiver, steem, sbd);
      if ok {
        EscrowReleasedQuiet(db, (from, id), receiver, steem, sbd);
        db := EscrowReleased(db, (from, id), receiver, steem, sbd);
      }
    }

    /** expire_escrow_ratification: unratified escrows past their deadline go back to the sender. */
    method ExpireEscrows()
      requires Valid()
      modifies this
      ensures Valid()
      ensures forall k :: k in db.escrows <==> k in old(db).escrows && !Expired(old(db).escrows[k], old(db).env.now)
      ensures forall k :: k in db.escrows ==> db.escrows[k] == old(db).escrows[k]
      ensures PaidOff(db.env, old(db).holders, db.holders, LapsedSteem(old(db).escrows, old(db).env.now),
                      LapsedSbd(old(db).escrows, old(db).env.now), LapsedTo(old(db).escrows, old(db).env.now))
      ensures SamePool(old(db), db)
    {
      hide Counted, SteemGap, SbdGap, VestGap, EscrowsSettling, PaidOff;
      SettlingStarts(db);
      while exists k :: k in db.escrows && Expired(db.escrows[k], db.env.now)
        invariant Valid() && db.env == old(db).env && SamePool(old(db), db)
        invariant forall k :: k in db.escrows ==> k in old(db).escrows && db.escrows[k] == old(db).escrows[k]
        invariant forall k :: k in old(db).escrows && !Expired(old(db).escrows[k], db.env.now) ==> k in db.escrows
        invariant EscrowsSettling(old(db), db)
        decreases |db.escrows|
      {
        hide EscrowRefunded;
        var k :| k in db.escrows && Expired(db.escrows[k], db.env.now);
        EscrowSettles(old(db), db, k);
        EscrowRefundedQuiet(db, k);
        db := EscrowRefunded(db, k);
      }
      EscrowsSettled(old(db), db);
    }

    // ----- conversions -----

    /** convert */
    method ConvertRequest(owner: Name, id: nat, amount: nat) returns (ok: bool)
      requires Valid() && amount > 0
      modifies this
      ensures Valid()
      ensures ok <==> && owner in old(db).holders && amount <= old(db).holders[owner].sbd
                      && old(db).feed.Feed? && (owner, id) !in old(db).conversions
      ensures !ok ==> db == old(db)
      ensures ok ==> db == ConversionRequested(old(db), owner, id,
                                               Pending(owner, amount, false, old(db).env.now + CONVERSION_DELAY))
      ensures SamePool(old(db), db)
    {
      hide InOrder, Conserved, GapsMoved, ConversionRequested, Uncrossed, Counted;
      if owner !in db.holders || db.holders[owner].sbd < amount || db.feed.NoFeed? || (owner, id) in db.conversions {
        return false;
      }
      ConversionRequestedQuiet(db, owner, id, Pending(owner, amount, false, db.env.now + CONVERSION_DELAY));
      db := ConversionRequested(db, owner, id, Pending(owner, amount, false, db.env.now + CONVERSION_DELAY));
      NoGap(old(db), db);
      ok := true;
    }

    /** process_conversions: due requests are burnt and replaced by tokens at the median price.
        The source adds up the two supply changes and applies them once after the loop. */
    method ProcessConversions()
      requires Valid()
      modifies this
      ensures Valid()
      ensures if old(db).feed.NoFeed? then db == old(db)
              else && Remaining(old(db).conversions, db.conversions, db.env.now) && db.env == old(db).env
                   && old(db).feed.sbd > 0 && ConvertedOff(old(db), db)
      ensures SamePool(old(db), db)
    {
      hide Counted, SteemGap, SbdGap, VestGap, ConversionPaid, ConversionsSettling, ConvertedOff;
      if db.feed.NoFeed? { return; }
      SettlingStarts(db);
      var netSbd, netSteem := 0, 0;
      while exists k :: k in db.conversions && db.conversions[k].due <= db.env.now
        invariant InOrder(db) && Uncrossed(db.orders) && db.env == old(db).env && db.feed == old(db).feed
        invariant SamePool(old(db), db) && Counted(db)
        invariant SteemGap(db) == 0 - netSteem && SbdGap(db) == netSbd && VestGap(db) == 0
        invariant StillPending(old(db).conversions, db.conversions, db.env.now) && ConversionsSettling(old(db), db)
        decreases |db.conversions|
      {
        var k :| k in db.conversions && db.conversions[k].due <= db.env.now;
        StillPendingWithout(old(db).conversions, db.conversions, db.env.now, k);
        netSbd := netSbd + db.conversions[k].amount;
        netSteem := netSteem + Convert(db.conversions[k].amount, db.feed.steem, db.feed.sbd);
        ConversionSettles(old(db), db, k);
        ConversionPaidQuiet(db, k);
        db := ConversionPaid(db, k);
      }
      ConversionsSettled(old(db), db);
      FundsCounted(db, SuppliesMoved(db, netSteem, 0 - netSbd));
      SameHoldersConverted(old(db), db, SuppliesMoved(db, netSteem, 0 - netSbd));
      db := SuppliesMoved(db, netSteem, 0 - netSbd);
    }

    // ----- the market -----

    /** The head of the range that apply_order scans: the best crossing order, oldest first. */
    method BestMatch(n: nat) returns (best: Option<nat>)
      requires InOrder(db) && n in db.orders
      ensures IsBest(db.orders, n, best)
    {
      best := None;
      var todo := db.orders.Keys;
      while todo != {}
        invariant todo <= db.orders.Keys
        invariant best.None? ==> forall i :: i in db.orders.Keys - todo ==> !Scanned(db.orders[n], db.orders[i])
        invariant best.Some? ==> best.value in db.orders && Scanned(db.orders[n], db.orders[best.value])
        invariant best.Some? ==> forall i :: i in db.orders.Keys - todo && Scanned(db.orders[n], db.orders[i]) ==>
                                   Precedes(db.orders, best.value, i)
        decreases todo
      {
        var i :| i in todo;
        todo := todo - {i};
        if Crosses(db.orders[n], db.orders[i]) && BelowMax(db.orders[i]) {
          if best.None? || Precedes(db.orders, i, best.value) {
            if best.Some? {
              NewBest(db, n, i, best.value, db.orders.Keys - todo);
            }
            best := Some(i);
          } else {
            PrecedenceTotal(db, i, best.value);
          }
        }
      }
    }

    /** apply_order: match the new order against the best crossing order until it is used up or
        nothing crosses any more. `resting` are the orders it meets and `states` the ledger before and after each. */
    method ApplyOrder(n: nat) returns (filled: bool, ghost states: seq<State>, ghost resting: seq<nat>)
      requires InOrder(db) && Conserved(db) && Counted(db) && n in db.orders && UncrossedBut(db.orders, n)
      requires forall i :: i in db.orders ==> i <= n
      modifies this
      ensures Valid() && db.env == old(db).env
      ensures Shrunk(old(db).orders, db.orders)
      ensures filled <==> n !in db.orders
      ensures Traded(states, n, resting) && states[0] == old(db) && states[|resting|] == db
      ensures n in db.orders ==> forall i :: i in db.orders ==> !Scanned(db.orders[n], db.orders[i])
      ensures SamePool(old(db), db)
    {
      hide Counted, InOrder, Conserved, GapsMoved, Matched, TradeAt, Shrunk, Precedes;
      ShrunkTwice(db.orders, db.orders, db.orders);
      states, resting := [db], [];
      var finished := false;
      var best := BestMatch(n);
      while !finished && best.Some?
        invariant InOrder(db) && Conserved(db) && Counted(db) && UncrossedBut(db.orders, n) && db.env == old(db).env
        invariant Shrunk(old(db).orders, db.orders) && SamePool(old(db), db)
        invariant finished <==> n !in db.orders
        invariant Traded(states, n, resting) && states[0] == old(db) && states[|resting|] == db
        invariant !finished ==> IsBest(db.orders, n, best)
        decreases |db.orders|
      {
        ghost var before := db;
        MatchedKeeps(db, n, best.value);
        MatchedQuiet(db, n, best.value);
        db := Matched(db, n, best.value);
        TradedBest(before, n, best.value);
        TradedMore(states, n, resting, db, best.value);
        states, resting := states + [db], resting + [best.value];
        NoGap(before, db);
        ShrunkTwice(old(db).orders, before.orders, db.orders);
        ShrinkingKeepsUncrossed(before.orders, db.orders, n);
        FewerOrders(before.orders, db.orders, n, best.value);
        finished := n !in db.orders;
        if !finished {
          best := BestMatch(n);
        }
      }
      NoNewer(old(db).orders, db.orders, n);
      SettledBookUncrossed(db.orders, n);
      filled := n !in db.orders;
    }

    /** limit_order_create and limit_order_create2, for a validated operation: the amounts are positive and
        the amount for sale still buys something at the price. */
    method CreateOrder(o: Order, fillOrKill: bool) returns (ok: bool)
      requires Valid() && db.steemSupply < INT64_LIMIT && db.sbdSupply < INT64_LIMIT
      requires o.forSale > 0 && o.base > 0 && o.quote > 0 && 0 < ToReceive(o) < INT64_LIMIT
      modifies this
      ensures Valid()
      ensures !ok ==> db == old(db)
      ensures ok ==> && OrderAllowed(old(db), o)
                     && Shrunk(old(db).orders[old(db).nextOrder := o], db.orders)
                     && (fillOrKill ==> old(db).nextOrder !in db.orders)
      ensures OrderAllowed(old(db), o) && !fillOrKill ==> ok
      ensures SamePool(old(db), db)
    {
      hide Counted, InOrder, Conserved, Uncrossed, UncrossedBut, OrderOpened, Traded, Shrunk, GapsMoved, ToReceive,
          Scanned;
      if o.expiration <= db.env.now || o.seller !in db.holders
         || Balance(db.holders[o.seller], o.sellsSteem) < o.forSale
         || exists i :: i in db.orders && db.orders[i].seller == o.seller && db.orders[i].orderId == o.orderId {
        return false;
      }
      var before := db;
      BalanceWithinSupply(db, o.seller);
      OrderOpenedConserves(db, o);
      OrderOpenedQuiet(db, o);
      db := OrderOpened(db, o);
      NoGap(before, db);
      NewOrderAlone(before, o);
      var filled, _, _ := ApplyOrder(before.nextOrder);
      if fillOrKill && !filled {
        db := before;
        return false;
      }
      ok := true;
    }

    /** limit_order_cancel */
    method CancelOrder(owner: Name, orderId: nat) returns (ok: bool)
      requires Valid()
      modifies this
      ensures Valid()
      ensures ok <==> exists i :: i in old(db).orders && Owned(old(db).orders[i], owner, orderId)
      ensures !ok ==> db == old(db)
      ensures ok ==>
                exists i :: i in old(db).orders && Owned(old(db).orders[i], owner, orderId) &&
                  db == OrderCancelled(old(db), i)
      ensures SamePool(old(db), db)
    {
      hide Counted;
      if i :| i in db.orders && Owned(db.orders[i], owner, orderId) {
        SmallerBookUncrossed(db.orders, db.orders - {i});
        OrderCancelledQuiet(db, i);
        db := OrderCancelled(db, i);
        ok := true;
      } else {
        ok := false;
      }
    }

    /** clear_expired_orders */
    method ExpireOrders()
      requires Valid()
      modifies this
      ensures Valid()
      ensures forall i :: i in db.orders <==> i in old(db).orders && old(db).orders[i].expiration >= old(db).env.now
      ensures forall i :: i in db.orders ==> db.orders[i] == old(db).orders[i]
      ensures PaidOff<nat>(db.env, old(db).holders, db.holders, StaleSteem(old(db).orders, old(db).env.now),
                           StaleSbd(old(db).orders, old(db).env.now), StaleTo(old(db).orders, old(db).env.now))
      ensures SamePool(old(db), db)
    {
      hide Counted, SteemGap, SbdGap, VestGap, OrderCancelled, OrdersSettling, PaidOff;
      SettlingStarts(db);
      while exists i :: i in db.orders && db.orders[i].expiration < db.env.now
        invariant Valid() && db.env == old(db).env && SamePool(old(db), db)
        invariant forall i :: i in db.orders ==> i in old(db).orders && db.orders[i] == old(db).orders[i]
        invariant forall i :: i in old(db).orders && old(db).orders[i].expiration >= db.env.now ==> i in db.orders
        invariant OrdersSettling(old(db), db)
        decreases |db.orders|
      {
        var i :| i in db.orders && db.orders[i].expiration < db.env.now;
        SmallerBookUncrossed(db.orders, db.orders - {i});
        FewerOrders(db.orders, db.orders - {i}, i, i);
        OrderSettles(old(db), db, i);
        OrderCancelledQuiet(db, i);
        db := OrderCancelled(db, i);
      }
      OrdersSettled(old(db), db);
    }

    // ----- vesting, inflation, burning -----

    /** First pass of a withdrawal: routed shares that stay shares. */
    method RouteVests(from: Name, amount: nat, routes: seq<Route>) returns (asVests: nat)
      requires Valid() && from in db.holders && amount <= db.holders[from].vests && RoutesTo(routes, db.holders.Keys)
      modifies this
      ensures asVests == Deposited(routes, amount, true)
      ensures InOrder(db) && GapsMoved(old(db), db, 0, 0, 0 - asVests)
      ensures SameRecords(old(db), db) && db.holders.Keys == old(db).holders.Keys
      ensures db.totalVests == old(db).totalVests && db.vestFund == old(db).vestFund
      ensures SharesRouted(old(db).holders, db.holders, routes, amount) && SameLiquid(old(db).holders, db.holders)
      ensures CountsKept(old(db), db)
    {
      hide Counted, SteemGap, SbdGap, VestGap, Revested;
      asVests := 0;
      for i := 0 to |routes|
        invariant asVests == Deposited(routes[..i], amount, true)
        invariant InOrder(db) && GapsMoved(old(db), db, 0, 0, 0 - asVests)
        invariant SameRecords(old(db), db) && db.holders.Keys == old(db).holders.Keys
        invariant db.totalVests == old(db).totalVests && db.vestFund == old(db).vestFund
        invariant SharesRouted(old(db).holders, db.holders, routes[..i], amount)
        invariant SameLiquid(old(db).holders, db.holders) && CountsKept(old(db), db)
      {
        RouteStep(routes, amount, i, from);
        ghost var before := db;
        if routes[i].autoVest {
          var deposit := Deposit(amount, routes[i].percent);
          asVests := asVests + deposit;
          RevestedCounted(db, routes[i].to, deposit, 0);
          db := Revested(db, routes[i].to, deposit, 0);
          RevestedShares(before, routes[i].to, deposit, 0);
        }
        OneMoreRouted(old(db).holders, before.holders, db.holders, routes, amount, i);
      }
      assert routes[..|routes|] == routes;
    }

    /** Second pass: routed shares that are cashed out for their targets. */
    method RouteSteem(from: Name, amount: nat, routes: seq<Route>) returns (asSteem: nat)
      requires InOrder(db) && from in db.holders && RoutesTo(routes, db.holders.Keys)
      requires Deposited(routes, amount, false) <= db.totalVests
      modifies this
      ensures asSteem == Deposited(routes, amount, false)
      ensures InOrder(db) && GapsMoved(old(db), db, 0, 0, 0 - asSteem)
      ensures SameRecords(old(db), db) && db.holders.Keys == old(db).holders.Keys
      ensures db.totalVests == old(db).totalVests - asSteem
      ensures forall a :: a in db.holders ==> db.holders[a].vests == old(db).holders[a].vests
      ensures CashRouted(old(db), db, routes, amount, |routes|) && CountsKept(old(db), db)
    {
      hide Counted, SteemGap, SbdGap, VestGap, CashedOut, CashRouted;
      asSteem := 0;
      NothingCashed(db, routes, amount);
      for i := 0 to |routes|
        invariant asSteem == Deposited(routes[..i], amount, false)
        invariant InOrder(db) && GapsMoved(old(db), db, 0, 0, 0 - asSteem)
        invariant SameRecords(old(db), db) && db.holders.Keys == old(db).holders.Keys
        invariant db.totalVests == old(db).totalVests - asSteem
        invariant forall a :: a in db.holders ==> db.holders[a].vests == old(db).holders[a].vests
        invariant CashRouted(old(db), db, routes, amount, i) && CountsKept(old(db), db)
      {
        OneMoreCashed(old(db), db, routes, amount, i);
        RouteStep(routes, amount, i, from);
        PrefixDeposits(routes, amount, false, i + 1);
        if !routes[i].autoVest {
          var deposit := Deposit(amount, routes[i].percent);
          asSteem := asSteem + deposit;
          CashedOutCounted(db, routes[i].to, deposit);
          db := CashedOut(db, routes[i].to, deposit);
        }
      }
      assert routes[..|routes|] == routes;
    }

    /** One due withdrawal of process_vesting_withdrawals. */
    method PowerDown(from: Name, target: int, withdrawn: int, rate: int, routes: seq<Route>) returns (amount: nat)
      requires Valid() && from in db.holders && rate > 0
      requires RoutesTo(routes, db.holders.Keys) && PercentSum(routes) <= HUNDRED_PERCENT
      modifies this
      ensures Valid()
      ensures amount == DueWithdrawal(old(db).holders[from].vests, target, withdrawn, rate)
      ensures amount <= old(db).holders[from].vests
      ensures db.totalVests == old(db).totalVests - amount + Deposited(routes, amount, true)
      ensures db.holders.Keys == old(db).holders.Keys
      ensures SharesPaid(old(db).holders, db.holders, routes, amount, from)
      ensures TokensPaid(old(db), db, routes, amount, from)
      ensures PriceKept(old(db), db)
    {
      hide Counted, InOrder, Conserved, GapsMoved, CashedOut, Revested, CashRouted, TokensPaid, PriceKept, Worth,
          SharesPaid,
          SharesRouted, SameLiquid, Uncrossed, DueWithdrawal, Deposited, PercentSum, PoolAfter;
      MayWithdraw(db, from);
      WithinHeld(db.holders[from].vests, target, withdrawn, rate);
      amount := DueWithdrawal(db.holders[from].vests, target, withdrawn, rate);
      DepositsWithin(routes, amount);
      var asVests := RouteVests(from, amount, routes);
      ghost var routed := db;
      var asSteem := RouteSteem(from, amount, routes);
      ghost var cashed := db;
      var toConvert: int := amount - asSteem - asVests;
      if toConvert < 0 {
        toConvert := 0;
      }
      StillHeld(old(db).holders, routed.holders, routes, amount, from);
      GapsAdd(old(db), routed, cashed, 0, 0, 0 - asVests as int, 0, 0, 0 - asSteem as int);
      PoolRouted(routed, cashed, routes, amount);
      CashRest(from, amount, toConvert);
      GapsAdd(old(db), cashed, db, 0, 0, 0 - (asVests + asSteem) as int, 0, 0, amount - toConvert);
      NoGap(old(db), db);
      WithdrawalKeepsPrice(old(db), db, routes, amount, toConvert);
      SharesAddUp(old(db).holders, routed.holders, cashed.holders, db.holders, routes, amount, from);
      TokensAddUp(old(db), routed, cashed, db, routes, amount, from);
    }

    /** The end of a withdrawal: what no route took is cashed out, and the source gives up the whole amount. */
    method CashRest(from: Name, amount: nat, rest: nat)
      requires InOrder(db) && from in db.holders && rest <= db.totalVests && amount <= db.holders[from].vests
      modifies this
      ensures InOrder(db) && GapsMoved(old(db), db, 0, 0, amount - rest) && SameRecords(old(db), db)
      ensures db.holders.Keys == old(db).holders.Keys && CountsKept(old(db), db)
      ensures PoolOf(db) == Drawn(PoolOf(old(db)), rest)
      ensures forall b {:trigger db.holders[b]} :: b in old(db).holders ==>
                && (db.holders[b].vests == old(db).holders[b].vests - if b == from then amount else 0)
                && (db.holders[b].steem == old(db).holders[b].steem
                      + if b == from then Worth(PoolOf(old(db)), rest) else 0)
                && db.holders[b].sbd == old(db).holders[b].sbd
    {
      hide Counted, InOrder, GapsMoved, CashedOut, Revested, Worth;
      CashedOutPays(db, from, rest);
      CashedOutCounted(db, from, rest);
      db := CashedOut(db, from, rest);
      ghost var before := db;
      RevestedCounted(db, from, 0 - amount as int, 0);
      RevestedShares(db, from, 0 - amount as int, 0);
      db := Revested(db, from, 0 - amount as int, 0);
      GapsAdd(old(db), before, db, 0, 0, 0 - rest as int, 0, 0, amount);
    }

    /** process_funds: a block's inflation goes to content, to the vesting fund and to the producer. */
    method ProcessFunds(producer: Name, virtualSupply: nat, headBlock: nat, weight: nat, factor: nat)
      requires Valid() && producer in db.holders && factor > 0
      modifies this
      ensures Valid()
      ensures var minted := NewTokens(virtualSupply, headBlock);
              && db.rewardFund == old(db).rewardFund + ContentShare(minted)
              && db.vestFund == old(db).vestFund + VestingShare(minted) + WitnessShare(minted, weight, factor)
              && db.steemSupply ==
                   old(db).steemSupply + ContentShare(minted) + VestingShare(minted) +
                       WitnessShare(minted, weight, factor)
              && db.sbdSupply == old(db).sbdSupply
              && var h, p :=
                   old(db).holders[producer], Pool(old(db).totalVests, old(db).vestFund + VestingShare(minted));
                 db.holders == old(db).holders[producer :=
                                 h.(vests := h.vests + Issue(p, WitnessShare(minted, weight, factor)))]
      ensures PriceKept(old(db), db)
    {
      hide Counted, InOrder, Conserved, GapsMoved, VestingCreated, PriceKept, Issue, ContentShare, VestingShare,
          WitnessShare;
      var minted := NewTokens(virtualSupply, headBlock);
      SharesOfInflation(minted, weight, factor);
      var pay := WitnessShare(minted, weight, factor);
      db := Issued(db, VestingShare(minted), ContentShare(minted), pay);
      ghost var issued := db;
      FundsCounted(old(db), issued);
      VestingCounted(issued, producer, pay);
      VestingKeepsPrice(old(db), issued, producer, pay);
      VestingPays(issued, producer, pay);
      VestingRecords(issued, producer, pay);
      db := VestingCreated(db, producer, pay);
      GapsAdd(old(db), issued, db, pay, 0, 0, 0 - pay, 0, 0);
      NoGap(old(db), db);
    }

    /** clear_null_account_balance: whatever the null account holds is burnt. Only interest that falls due on dollars it
        held is left, and is new supply. */
    method ClearNull(null_: Name)
      requires Valid() && null_ in db.holders
      modifies this
      ensures Valid()
      ensures SameRecords(old(db), db)
      ensures db.holders == old(db).holders[null_ := Burnt(old(db).holders[null_], old(db).env).(vests := 0)]
      ensures var h, r, env := old(db).holders[null_], db.holders[null_], old(db).env;
              && r.steem == 0 && r.savings == 0 && r.vests == 0
              && r.sbd == (if h.sbd > 0 then SbdInterest(h, env) else 0)
              && r.savingsSbd == (if h.savingsSbd > 0 then SavingsInterest(h, env) else 0)
              && db.sbdSupply == old(db).sbdSupply - h.sbd - h.savingsSbd + r.sbd + r.savingsSbd
      ensures db.totalVests == old(db).totalVests - old(db).holders[null_].vests
      ensures var h := old(db).holders[null_];
              db.steemSupply ==
                  old(db).steemSupply - h.steem - h.savings - SteemFor(h.vests, old(db).totalVests, old(db).vestFund)
      ensures PriceKept(old(db), db)
    {
      hide Counted;
      assert HolderOk(db.holders[null_], db.env.now);
      var h := db.holders[null_];
      hide InOrder, Conserved, Burnt, SbdInterest, SavingsInterest, SteemFor;
      BurntIs(h, db.env);
      BurnLiquid(null_);
      BurnShares(null_, h);
    }

    /** The liquid and savings part: both assets, with the supplies reduced by what was held. */
    method BurnLiquid(a: Name)
      requires Valid() && a in db.holders
      modifies this
      ensures Valid() && SameRecords(old(db), db)
      ensures db.holders == old(db).holders[a := Burnt(old(db).holders[a], old(db).env)]
      ensures db.steemSupply == old(db).steemSupply - old(db).holders[a].steem - old(db).holders[a].savings
      ensures var h, r := old(db).holders[a], db.holders[a];
              db.sbdSupply == old(db).sbdSupply - h.sbd - h.savingsSbd + r.sbd + r.savingsSbd
      ensures db.totalVests == old(db).totalVests && db.vestFund == old(db).vestFund
    {
      hide Counted, InOrder, GapsMoved, Emptied, Conserved, Burnt;
      var h := db.holders[a];
      EmptiedAll(db, a);
      db := Emptied(db, a, true, false);
      db := Emptied(db, a, true, true);
      db := Emptied(db, a, false, false);
      db := Emptied(db, a, false, true);
      ghost var emptied := db;
      db := SuppliesMoved(db, 0 - h.steem - h.savings, 0 - h.sbd - h.savingsSbd);
      GapsAdd(old(db), emptied, db, h.steem + h.savings, h.sbd + h.savingsSbd, 0,
              0 - h.steem - h.savings, 0 - h.sbd - h.savingsSbd, 0);
      NoGap(old(db), db);
      BurntRequests(old(db), a);
      SameCounted(old(db), db);
    }

    method BurnShares(a: Name, h: Holder)
      requires Valid() && a in db.holders && db.holders[a].vests == h.vests
      modifies this
      ensures Valid() && SameRecords(old(db), db) && db.holders == old(db).holders[a := old(db).holders[a].(vests := 0)]
      ensures db.totalVests == old(db).totalVests - h.vests
      ensures db.steemSupply == old(db).steemSupply - SteemFor(h.vests, old(db).totalVests, old(db).vestFund)
      ensures db.sbdSupply == old(db).sbdSupply
      ensures PriceKept(old(db), db)
    {
      hide Counted, SteemGap, SbdGap, VestGap, SteemFor;
      assert HolderOk(db.holders[a], db.env.now);
      BalanceWithinSupply(db, a);
      var converted := SteemFor(h.vests, db.totalVests, db.vestFund);
      DrawnKeepsPrice(db, h.vests);
      FundsCounted(db, FundDrawn(db, h.vests));
      db := FundDrawn(db, h.vests);
      RevestedCounted(db, a, 0 - h.vests, 0);
      db := Revested(db, a, 0 - h.vests, 0);
      FundsCounted(db, SuppliesMoved(db, 0 - converted, 0));
      db := SuppliesMoved(db, 0 - converted, 0);
    }
  }

  // ----- burning -----

  /** One of the four balances. */
  function Held(h: Holder, inSteem: bool, saved: bool): int {
    if saved then Saved(h, inSteem) else Balance(h, inSteem)
  }

  /** An account without that balance, except for interest. A balance of zero is not touched. */
  function Without(h: Holder, inSteem: bool, saved: bool, env: Env): Holder {
    if Held(h, inSteem, saved) <= 0 then h
    else if saved then AdjustSaved(h, 0 - Saved(h, inSteem), inSteem, env)
    else Adjust(h, 0 - Balance(h, inSteem), inSteem, env)
  }

  /** An account after its liquid and savings balances are burnt. */
  function Burnt(h: Holder, env: Env): Holder {
    Without(Without(Without(Without(h, true, false, env), true, true, env), false, false, env), false, true, env)
  }

  lemma BurntRequests(s: State, a: Name)
    requires InOrder(s) && a in s.holders
    ensures Burnt(s.holders[a], s.env).requests == s.holders[a].requests
  {
    assert HolderOk(s.holders[a], s.env.now);
    hide Burnt, InOrder;
    BurntIs(s.holders[a], s.env);
  }

  lemma BurntIs(h: Holder, env: Env)
    requires HolderOk(h, env.now)
    ensures var r := Burnt(h, env);
            && r.steem == 0 && r.savings == 0 && r.vests == h.vests && r.requests == h.requests
            && r.sbd == (if h.sbd > 0 then SbdInterest(h, env) else 0)
            && r.savingsSbd == (if h.savingsSbd > 0 then SavingsInterest(h, env) else 0)
  {
  }

  function Emptied(s: State, a: Name, inSteem: bool, saved: bool): State
    requires InOrder(s) && a in s.holders
  {
    assert HolderOk(s.holders[a], s.env.now);
    if Held(s.holders[a], inSteem, saved) <= 0 then s
    else if saved then AdjustedSavings(s, a, 0 - Saved(s.holders[a], inSteem), inSteem)
    else Adjusted(s, a, 0 - Balance(s.holders[a], inSteem), inSteem)
  }

  /** `r` is `s` with the account replaced, the gaps opened by these amounts, and new dollars only for interest. */
  ghost predicate Drained(s: State, r: State, a: Name, h: Holder, steem: int, sbd: int) {
    && a in s.holders && InOrder(r) && SameRecords(s, r) && GapsMoved(s, r, steem, sbd, 0)
    && r.holders == s.holders[a := h]
    && r.steemSupply == s.steemSupply && r.totalVests == s.totalVests && r.vestFund == s.vestFund
    && r.sbdSupply == s.sbdSupply + h.sbd + h.savingsSbd - s.holders[a].sbd - s.holders[a].savingsSbd + sbd
  }

  lemma EmptiedIs(s: State, a: Name, inSteem: bool, saved: bool)
    requires InOrder(s) && a in s.holders
    ensures var amount := Held(s.holders[a], inSteem, saved);
            Drained(s, Emptied(s, a, inSteem, saved), a, Without(s.holders[a], inSteem, saved, s.env),
                    if inSteem then amount else 0, if inSteem then 0 else amount)
  {
    assert HolderOk(s.holders[a], s.env.now);
    var h := s.holders[a];
    hide InOrder, Adjusted, AdjustedSavings, Adjust, AdjustSaved, Drained;
    if Held(h, inSteem, saved) <= 0 {
      Undrained(s, a);
    } else if saved {
      AdjustedSavingsIs(s, a, 0 - Saved(h, inSteem), inSteem);
    } else {
      AdjustedIs(s, a, 0 - Balance(h, inSteem), inSteem);
    }
  }

  lemma Undrained(s: State, a: Name)
    requires InOrder(s) && a in s.holders
    ensures Drained(s, s, a, s.holders[a], 0, 0)
  {
    hide InOrder, SteemGap, SbdGap, VestGap;
    assert s.holders[a := s.holders[a]] == s.holders;
  }

  lemma DrainedTwice(s: State, t: State, r: State, a: Name, h: Holder, h': Holder, steem: int, sbd: int, steem': int,
                     sbd': int)
    requires Drained(s, t, a, h, steem, sbd) && Drained(t, r, a, h', steem', sbd')
    ensures Drained(s, r, a, h', steem + steem', sbd + sbd')
  {
    hide InOrder, SteemGap, SbdGap, VestGap;
    assert s.holders[a := h][a := h'] == s.holders[a := h'];
  }

  lemma EmptiedAll(s: State, a: Name)
    requires InOrder(s) && a in s.holders
    ensures var s1 := Emptied(s, a, true, false);
            InOrder(s1) && a in s1.holders &&
            var s2 := Emptied(s1, a, true, true);
            InOrder(s2) && a in s2.holders &&
            var s3 := Emptied(s2, a, false, false);
            InOrder(s3) && a in s3.holders &&
            var h := s.holders[a];
            Drained(s, Emptied(s3, a, false, true), a, Burnt(h, s.env), h.steem + h.savings, h.sbd + h.savingsSbd)
  {
    hide InOrder, GapsMoved, Emptied, SteemGap, SbdGap, VestGap;
    var h := s.holders[a];
    var s1 := Emptied(s, a, true, false);
    EmptiedIs(s, a, true, false);
    var s2 := Emptied(s1, a, true, true);
    EmptiedIs(s1, a, true, true);
    DrainedTwice(s, s1, s2, a, s1.holders[a], s2.holders[a], h.steem, 0, h.savings, 0);
    var s3 := Emptied(s2, a, false, false);
    EmptiedIs(s2, a, false, false);
    DrainedTwice(s, s2, s3, a, s2.holders[a], s3.holders[a], h.steem + h.savings, 0, 0, h.sbd);
    var s4 := Emptied(s3, a, false, true);
    EmptiedIs(s3, a, false, true);
    DrainedTwice(s, s3, s4, a, s3.holders[a], s4.holders[a], h.steem + h.savings, h.sbd, 0, h.savingsSbd);
  }

  lemma NoGap(s: State, r: State)
    requires Conserved(s) && GapsMoved(s, r, 0, 0, 0)
    ensures Conserved(r)
  {
  }

  lemma AdjustedIs(s: State, a: Name, delta: int, inSteem: bool)
    requires InOrder(s) && a in s.holders && (delta >= 0 || Balance(s.holders[a], inSteem) + delta >= 0)
    ensures Drained(s, Adjusted(s, a, delta, inSteem), a, Adjust(s.holders[a], delta, inSteem, s.env),
                    if inSteem then 0 - delta else 0, if inSteem then 0 else 0 - delta)
  {
    hide SteemGap, SbdGap, VestGap, InOrder, GapsMoved, SbdInterest, Settled;
  }

  lemma AdjustedSavingsIs(s: State, a: Name, delta: int, inSteem: bool)
    requires InOrder(s) && a in s.holders && (delta >= 0 || Saved(s.holders[a], inSteem) + delta >= 0)
    ensures Drained(s, AdjustedSavings(s, a, delta, inSteem), a, AdjustSaved(s.holders[a], delta, inSteem, s.env),
                    if inSteem then 0 - delta else 0, if inSteem then 0 else 0 - delta)
  {
    hide SteemGap, SbdGap, VestGap, InOrder, GapsMoved, SavingsInterest, Settled;
  }

  lemma RevestedShares(s: State, a: Name, vests: int, steem: int)
    requires InOrder(s) && a in s.holders && steem >= 0 && (vests >= 0 || s.holders[a].vests + vests >= 0)
    ensures var r := Revested(s, a, vests, steem);
            forall b :: b in s.holders ==> (r.holders[b].vests == s.holders[b].vests + if b == a then vests else 0)
    ensures steem == 0 ==> SameLiquid(s.holders, Revested(s, a, vests, steem).holders)
    ensures Revested(s, a, vests, steem).totalVests == s.totalVests
    ensures Revested(s, a, vests, steem).vestFund == s.vestFund
  {
  }

  ghost predicate SameLiquid(before: Holders, after: Holders) {
    && before.Keys == after.Keys
    && forall a {:trigger after[a]} :: a in before ==>
         after[a].steem == before[a].steem && after[a].sbd == before[a].sbd
  }

  /** Every target of a cash route has its tokens, and the source those for the shares that no route took. */
  ghost predicate TokensPaid(s: State, r: State, routes: seq<Route>, amount: nat, from: Name) {
    var rest := amount - Deposited(routes, amount, true) - Deposited(routes, amount, false);
    && s.holders.Keys == r.holders.Keys
    && forall a {:trigger r.holders[a]} :: a in s.holders ==>
         && r.holders[a].steem == s.holders[a].steem + TokensTo(PoolOf(s), routes, amount, |routes|, a)
              + (if a == from then Worth(PoolAfter(PoolOf(s), routes, amount, |routes|), rest) else 0)
         && r.holders[a].sbd == s.holders[a].sbd
  }

  lemma SharesAddUp(before: Holders, routed: Holders, cashed: Holders, after: Holders, routes: seq<Route>, amount: nat,
                    from: Name)
    requires SharesRouted(before, routed, routes, amount) && routed.Keys == cashed.Keys == after.Keys
    requires forall a :: a in routed ==> cashed[a].vests == routed[a].vests
    requires forall a {:trigger after[a]} :: a in cashed ==>
               (after[a].vests == cashed[a].vests - if a == from then amount else 0)
    ensures SharesPaid(before, after, routes, amount, from)
  {
  }

  lemma MayWithdraw(s: State, from: Name)
    requires InOrder(s) && Conserved(s) && from in s.holders
    ensures 0 <= s.holders[from].vests <= s.totalVests && Backed(PoolOf(s))
  {
    assert HolderOk(s.holders[from], s.env.now);
    BalanceWithinSupply(s, from);
  }

  lemma StillHeld(before: Holders, routed: Holders, routes: seq<Route>, amount: nat, from: Name)
    requires SharesRouted(before, routed, routes, amount) && from in routed
    ensures routed[from].vests >= before[from].vests
  {
    assert ReceivedBy(routes, amount, from) >= 0;
  }

  lemma PoolRouted(s: State, r: State, routes: seq<Route>, amount: nat)
    requires CashRouted(s, r, routes, amount, |routes|)
    ensures PoolOf(r) == PoolAfter(PoolOf(s), routes, amount, |routes|)
  {
  }

  lemma TokensAddUp(s: State, t: State, u: State, r: State, routes: seq<Route>, amount: nat, from: Name)
    requires SameLiquid(s.holders, t.holders) && PoolOf(t) == PoolOf(s) && CashRouted(t, u, routes, amount, |routes|)
    requires from in u.holders && r.holders.Keys == u.holders.Keys
    requires var rest := amount - Deposited(routes, amount, true) - Deposited(routes, amount, false);
             forall b {:trigger r.holders[b]} :: b in u.holders ==>
               && (r.holders[b].steem == u.holders[b].steem + if b == from then Worth(PoolOf(u), rest) else 0)
               && r.holders[b].sbd == u.holders[b].sbd
    ensures TokensPaid(s, r, routes, amount, from)
  {
    hide TokensTo, PoolAfter, Worth, Deposited;
    forall a | a in s.holders
      ensures r.holders[a].steem == s.holders[a].steem + TokensTo(PoolOf(s), routes, amount, |routes|, a)
                + (if a == from then Worth(PoolAfter(PoolOf(s), routes, amount, |routes|),
                                           amount - Deposited(routes, amount, true) - Deposited(routes, amount, false))
                                             else 0)
      ensures r.holders[a].sbd == s.holders[a].sbd
    {
      assert t.holders[a] == t.holders[a] && u.holders[a] == u.holders[a] && r.holders[a] == r.holders[a];
    }
  }

  /** Every target of an auto-vesting route has received its shares. */
  ghost predicate SharesRouted(before: Holders, after: Holders, routes: seq<Route>, amount: nat) {
    && before.Keys == after.Keys
    && forall a {:trigger ReceivedBy(routes, amount, a)} :: a in after ==>
         after[a].vests == before[a].vests + ReceivedBy(routes, amount, a)
  }

  /** ... and the source is poorer by the whole amount. */
  ghost predicate SharesPaid(before: Holders, after: Holders, routes: seq<Route>, amount: nat, from: Name) {
    && before.Keys == after.Keys
    && forall a {:trigger ReceivedBy(routes, amount, a)} :: a in after ==>
         after[a].vests == before[a].vests + ReceivedBy(routes, amount, a) - (if a == from then amount else 0)
  }

  lemma OneMoreRouted(holders0: Holders, before: Holders, after: Holders, routes: seq<Route>, amount: nat, i: nat)
    requires i < |routes| && SharesRouted(holders0, before, routes[..i], amount) && before.Keys == after.Keys
    requires forall a :: a in before ==> (after[a].vests == before[a].vests
               + if routes[i].autoVest && a == routes[i].to then Deposit(amount, routes[i].percent) else 0)
    ensures SharesRouted(holders0, after, routes[..i + 1], amount)
  {
    forall a | a in after ensures after[a].vests == holders0[a].vests + ReceivedBy(routes[..i + 1], amount, a) {
      RouteStep(routes, amount, i, a);
    }
  }

  lemma NothingCashed(s: State, routes: seq<Route>, amount: nat)
    ensures CashRouted(s, s, routes, amount, 0)
  {
  }

  lemma SameHoldersConverted(s0: State, s: State, r: State)
    requires s0.feed.Feed? && s0.feed.sbd > 0 && ConvertedOff(s0, s) && r.holders == s.holders
    ensures ConvertedOff(s0, r)
  {
  }

  lemma LaterIsFine(holders: Holders, now: int, later: int)
    requires HoldersOk(holders, now) && now <= later
    ensures HoldersOk(holders, later)
  {
    forall a | a in holders ensures HolderOk(holders[a], later) {
      assert HolderOk(holders[a], now);
    }
  }

  predicate Owned(o: Order, owner: Name, orderId: nat) {
    o.seller == owner && o.orderId == orderId
  }

  ghost predicate OrderAllowed(s: State, o: Order) {
    && o.expiration > s.env.now && o.seller in s.holders && o.forSale <= Balance(s.holders[o.seller], o.sellsSteem)
    && !exists i :: i in s.orders && s.orders[i].seller == o.seller && s.orders[i].orderId == o.orderId
  }

  lemma NoNewer(before: Book, after: Book, n: nat)
    requires Shrunk(before, after) && forall i :: i in before ==> i <= n
    ensures forall i :: i in after ==> i <= n
  {
  }

  lemma FewerOrders(before: Book, after: Book, n: nat, o: nat)
    requires Shrunk(before, after) && n in before && o in before && (n !in after || o !in after)
    ensures |after| < |before|
  {
    var gone := if n in after then o else n;
    assert after.Keys <= before.Keys - {gone};
    CardinalityMonotone(after.Keys, before.Keys - {gone});
    assert |before.Keys - {gone}| == |before.Keys| - 1;
  }

  lemma {:induction false} CardinalityMonotone<T>(a: set<T>, b: set<T>)
    requires a <= b
    ensures |a| <= |b|
    decreases a
  {
    if a != {} {
      var x :| x in a;
      CardinalityMonotone(a - {x}, b - {x});
    }
  }

  /** Before matching, only the new order can cross, and none is newer. */
  lemma NewOrderAlone(s: State, o: Order)
    requires InOrder(s) && Uncrossed(s.orders)
    ensures var book := s.orders[s.nextOrder := o];
            UncrossedBut(book, s.nextOrder) && forall i :: i in book ==> i <= s.nextOrder
  {
    forall i | i in s.orders ensures i < s.nextOrder {
      assert Sound(s.orders[i]);
    }
  }

  lemma NewBest(s: State, n: nat, i: nat, best: nat, done: set<nat>)
    requires InOrder(s) && n in s.orders && i in s.orders && best in s.orders && done <= s.orders.Keys
    requires Precedes(s.orders, i, best)
    requires forall j :: j in done - {i} && Scanned(s.orders[n], s.orders[j]) ==> Precedes(s.orders, best, j)
    ensures forall j :: j in done && Scanned(s.orders[n], s.orders[j]) ==> Precedes(s.orders, i, j)
  {
    forall j | j in done && Scanned(s.orders[n], s.orders[j]) ensures Precedes(s.orders, i, j) {
      assert Sound(s.orders[i]) && Sound(s.orders[best]) && Sound(s.orders[j]);
      if j != i {
        AheadTransitive(s.orders[i].base, s.orders[i].quote, i, s.orders[best].base, s.orders[best].quote, best,
                        s.orders[j].base, s.orders[j].quote, j);
      }
    }
  }

  lemma PrecedenceTotal(s: State, i: nat, j: nat)
    requires i in s.orders && j in s.orders
    ensures Precedes(s.orders, i, j) || Precedes(s.orders, j, i)
  {
    assert s.orders[i].base * s.orders[j].quote == s.orders[j].quote * s.orders[i].base;
    assert s.orders[j].base * s.orders[i].quote == s.orders[i].quote * s.orders[j].base;
  }
}
