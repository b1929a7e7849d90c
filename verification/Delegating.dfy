/** The operations on delegations. The counters on the accounts and the records behind them always agree. */
module Delegating {
  import opened Arith
  import opened Common
  import opened MapSums
  import opened Market
  import LedgerState
  import opened DelegationBooks

  /** STEEMIT_CASHOUT_WINDOW_SECONDS, 7 days */
  const RETURN_DELAY: int := 604_800

  /** available_vesting_shares, running withdrawals considered */
  function Available(a: Account): int {
    a.vests - a.delegated - a.withdrawing
  }

  function Later(a: int, b: int): int {
    if a >= b then a else b
  }

  function Current(ds: Delegations, k: Pair): int {
    if k in ds then ds[k].shares else 0
  }

  /** The voting power left limits what may be lent. */
  function PowerLimit(vests: int, power: nat): int {
    vests * power / HUNDRED_PERCENT
  }

  lemma PowerLimitBounds(vests: int, power: nat)
    ensures IsFloor(PowerLimit(vests, power), vests * power, HUNDRED_PERCENT)
  {
    FloorIs(vests * power, HUNDRED_PERCENT);
  }

  /** What a delegation asks for: shares, and an interest rate unless it is a plain one. */
  datatype Terms = Terms(shares: nat, interest: Option<nat>)

  /** The interest is limited, and an existing delegation keeps its own. */
  predicate InterestAllowed(ds: Delegations, k: Pair, interest: Option<nat>, maxInterest: nat) {
    interest.Some? ==> interest.value <= maxInterest && (k in ds ==> ds[k].interest == interest.value)
  }

  predicate LendAllowed(accounts: Accounts, ds: Delegations, k: Pair, shares: nat, minDelegation: int, minUpdate: int,
                        power: nat) {
    && k.0 in accounts && k.1 in accounts
    && var delta := shares - Current(ds, k);
       if delta > 0
       then && delta >= minUpdate && delta <= Available(accounts[k.0])
            && accounts[k.0].delegated + delta <= PowerLimit(accounts[k.0].vests, power)
            && (k !in ds ==> shares >= minDelegation)
       else k in ds && -delta >= minUpdate && (shares == 0 || shares >= minDelegation)
  }

  /** The record of a pair set to `shares`; nothing is no record. */
  function Recorded(ds: Delegations, k: Pair, shares: int, now: int, interest: nat): Delegations {
    if shares <= 0 then ds - {k}
    else if k in ds then ds[k := ds[k].(shares := shares)]
    else ds[k := Delegation(shares, now, interest)]
  }

  function Rate(interest: Option<nat>): nat {
    if interest.Some? then interest.value else 0
  }

  function WithDelegated(accounts: Accounts, a: Name, change: int): (r: Accounts)
    requires a in accounts
    ensures r.Keys == accounts.Keys
  {
    accounts[a := accounts[a].(delegated := accounts[a].delegated + change)]
  }

  function WithReceived(accounts: Accounts, a: Name, change: int): (r: Accounts)
    requires a in accounts
    ensures r.Keys == accounts.Keys
  {
    accounts[a := accounts[a].(received := accounts[a].received + change)]
  }

  function Returned(es: Expirations, i: nat, delegator: Name, shares: int, now: int, minTime: int): Expirations {
    es[i := Expiration(delegator, shares, Later(now + RETURN_DELAY, minTime))]
  }

  // ----- what a new account costs -----

  /** The median chain properties that limit account creation. */
  datatype Minimum = Minimum(golosFee: nat, delegation: nat, creationFee: nat)

  /** The vesting share price: all shares against the whole fund. */
  datatype Price = Price(vests: int, fund: int)

  predicate PriceOk(price: Price) {
    price.vests >= 0 && price.fund >= 0
  }

  function InShares(golos: nat, price: Price): (r: nat)
    requires PriceOk(price)
  {
    LedgerState.NewSharesNonNegative(golos, price.vests, price.fund);
    LedgerState.SharesFor(golos, price.vests, price.fund)
  }

  /** The fee, scaled up by how many creation fees make the target, and the delegation reach the target together. */
  predicate Sufficient(fee: nat, shares: nat, minimum: Minimum, price: Price)
    requires PriceOk(price)
  {
    && minimum.creationFee > 0 && fee >= minimum.golosFee
    && var target := minimum.golosFee + minimum.delegation;
       InShares(Scaled(fee, target, minimum.creationFee), price) + shares >= InShares(target, price)
  }

  function Scaled(fee: nat, target: nat, creationFee: nat): nat
    requires creationFee > 0
  {
    FloorAtLeast(fee * target, creationFee, 0);
    fee * target / creationFee
  }

  /** A fee of the full creation fee suffices without any delegation, and so does a delegation of the target without
      more than the minimum fee. */
  lemma EitherSuffices(fee: nat, shares: nat, minimum: Minimum, price: Price)
    requires PriceOk(price) && minimum.creationFee > 0 && fee >= minimum.golosFee
    requires fee >= minimum.creationFee || shares >= InShares(minimum.golosFee + minimum.delegation, price)
    ensures Sufficient(fee, shares, minimum, price)
  {
    var target := minimum.golosFee + minimum.delegation;
    if fee >= minimum.creationFee {
      MulMono(minimum.creationFee, fee, target);
      FloorAtLeast(fee * target, minimum.creationFee, target);
      MoreInShares(target, Scaled(fee, target, minimum.creationFee), price);
    }
  }

  lemma MoreInShares(x: nat, y: nat, price: Price)
    requires PriceOk(price) && x <= y
    ensures InShares(x, price) <= InShares(y, price)
  {
    if price.vests == 0 || price.fund == 0 {
      ConvertMono(x, y, 1_000_000, 1_000);
    } else {
      ConvertMono(x, y, price.vests, price.fund);
    }
  }

  // ----- the books after each change -----

  lemma RecordMoves(ds: Delegations, k: Pair, shares: int, now: int, interest: nat, a: Name)
    requires shares >= 0
    ensures var delta := shares - Current(ds, k);
            && Outgoing(Recorded(ds, k, shares, now, interest), a) == Outgoing(ds, a) + (if k.0 == a then delta else 0)
            && Incoming(Recorded(ds, k, shares, now, interest), a) == Incoming(ds, a) + (if k.1 == a then delta else 0)
  {
    if shares == 0 {
      if k in ds {
        DelegationGone(ds, k, a);
      } else {
        assert ds - {k} == ds;
      }
    } else {
      DelegationPut(ds, k, Recorded(ds, k, shares, now, interest)[k], a);
    }
  }

  /** An increase: the lender's counter and the borrower's go up with the record. */
  lemma Increased(accounts: Accounts, ds: Delegations, es: Expirations, k: Pair, shares: int, now: int, interest: nat)
    requires BooksAgree(accounts, ds, es) && k.0 in accounts && k.1 in accounts && shares >= 0
    ensures var delta := shares - Current(ds, k);
            BooksAgree(WithReceived(WithDelegated(accounts, k.0, delta), k.1, delta),
                       Recorded(ds, k, shares, now, interest), es)
  {
    hide Outgoing, Incoming, Returning;
    var delta := shares - Current(ds, k);
    var after := WithReceived(WithDelegated(accounts, k.0, delta), k.1, delta);
    forall a | a in after
      ensures after[a].delegated == Outgoing(Recorded(ds, k, shares, now, interest), a) + Returning(es, a)
      ensures after[a].received == Incoming(Recorded(ds, k, shares, now, interest), a)
    {
      assert accounts[a] == accounts[a];
      RecordMoves(ds, k, shares, now, interest, a);
    }
  }

  /** A decrease: what is taken back stays with the lender's counter until it expires. */
  lemma Decreased(accounts: Accounts, ds: Delegations, es: Expirations, i: nat, k: Pair, shares: int, now: int,
                  interest: nat, e: Expiration)
    requires BooksAgree(accounts, ds, es) && i !in es && k.0 in accounts && k.1 in accounts && 0 <= shares
    requires e.delegator == k.0 && e.shares == Current(ds, k) - shares
    ensures BooksAgree(WithReceived(accounts, k.1, shares - Current(ds, k)), Recorded(ds, k, shares, now, interest),
                       es[i := e])
  {
    hide Outgoing, Incoming, Returning;
    var after := WithReceived(accounts, k.1, shares - Current(ds, k));
    forall a | a in after
      ensures after[a].delegated == Outgoing(Recorded(ds, k, shares, now, interest), a) + Returning(es[i := e], a)
      ensures after[a].received == Incoming(Recorded(ds, k, shares, now, interest), a)
    {
      assert accounts[a] == accounts[a];
      RecordMoves(ds, k, shares, now, interest, a);
      ExpirationPut(es, i, e, a);
    }
  }

  lemma Expired(accounts: Accounts, ds: Delegations, es: Expirations, i: nat)
    requires BooksAgree(accounts, ds, es) && i in es && es[i].delegator in accounts
    ensures BooksAgree(WithDelegated(accounts, es[i].delegator, 0 - es[i].shares), ds, es - {i})
  {
    hide Outgoing, Incoming, Returning;
    var after := WithDelegated(accounts, es[i].delegator, 0 - es[i].shares);
    forall a | a in after
      ensures after[a].delegated == Outgoing(ds, a) + Returning(es - {i}, a) && after[a].received == Incoming(ds, a)
    {
      assert accounts[a] == accounts[a];
      ExpirationGone(es, i, a);
    }
  }

  /** Nobody has lent to, borrowed from or waits for an unknown account. */
  lemma Unknown(accounts: Accounts, ds: Delegations, es: Expirations, next: nat, a: Name)
    requires RecordsOk(accounts.Keys, ds, es, next) && a !in accounts
    ensures Outgoing(ds, a) == 0 && Incoming(ds, a) == 0 && Returning(es, a) == 0
  {
    forall k | k in ds ensures k.0 != a && k.1 != a {
      assert ds[k] == ds[k];
    }
    forall i | i in es ensures es[i].delegator != a {
    }
    NoGroup(Lent(ds), Lenders(ds), a);
    NoGroup(Lent(ds), Borrowers(ds), a);
    NoGroup(Pending(es), PendingFor(es), a);
  }

  lemma NoGroup<K>(m: map<K, int>, key: map<K, Name>, a: Name)
    requires forall k {:trigger key[k]} :: k in key ==> key[k] != a
    ensures Sum(Group(m, key, a)) == 0
  {
    assert Group(m, key, a) == map[];
  }

  class Lending {
    var accounts: Accounts
    var delegations: Delegations
    var expirations: Expirations
    var next: nat

    ghost predicate Valid()
      reads this
    {
      && BooksAgree(accounts, delegations, expirations) && RecordsOk(accounts.Keys, delegations, expirations, next)
      && Covered(accounts)
    }

    constructor ()
      ensures Valid() && accounts == map[] && delegations == map[] && expirations == map[]
    {
      accounts, delegations, expirations, next := map[], map[], map[], 0;
    }

    /** delegate_vesting_shares, plain or with interest. A reduction without a record, which only a minimum update of
        zero lets through the checks, is refused. */
    method Delegate(k: Pair, terms: Terms, now: int, minDelegation: int, minUpdate: int, maxInterest: nat, power: nat)
      returns (ok: bool)
      requires Valid() && maxInterest <= MAX_INTEREST
      modifies this
      ensures Valid()
      ensures ok <==> && LendAllowed(old(accounts), old(delegations), k, terms.shares, minDelegation, minUpdate, power)
                      && InterestAllowed(old(delegations), k, terms.interest, maxInterest)
      ensures if !ok then
                accounts == old(accounts) && delegations == old(delegations) && expirations == old(expirations)
              else var delta := terms.shares - Current(old(delegations), k);
                   && delegations == Recorded(old(delegations), k, terms.shares, now, Rate(terms.interest))
                   && accounts ==
                        WithReceived(WithDelegated(old(accounts), k.0, if delta > 0 then delta else 0), k.1, delta)
                   && (if delta > 0 then expirations == old(expirations)
                       else k in old(delegations) && expirations ==
                            Returned(old(expirations), old(next), k.0, -delta, now, old(delegations)[k].minTime))
      ensures ok && terms.shares > 0 ==>
                && k in delegations && delegations[k].shares == terms.shares
                && (delegations[k].interest == if k in old(delegations) then old(delegations)[k].interest
                                               else Rate(terms.interest))
      ensures ok && terms.shares == 0 ==> k !in delegations
      ensures ok && terms.shares > Current(old(delegations), k) ==>
                HUNDRED_PERCENT * accounts[k.0].delegated <= old(accounts)[k.0].vests * power
    {
      hide BooksAgree, RecordsOk, PowerLimit, Returned, Covered;
      var shares, interest := terms.shares, Rate(terms.interest);
      if k.0 !in accounts || k.1 !in accounts || !InterestAllowed(delegations, k, terms.interest, maxInterest) {
        return false;
      }
      PositiveRecord(accounts.Keys, delegations, expirations, next, k);
      var known := k in delegations;
      var delta := shares - Current(delegations, k);
      if (if delta > 0 then delta else -delta) < minUpdate {
        return false;
      }
      if delta > 0 {
        var lender := accounts[k.0];
        if Available(lender) < delta || lender.delegated + delta > PowerLimit(lender.vests, power) {
          return false;
        }
        if !known && shares < minDelegation {
          return false;
        }
        PowerLimitBounds(lender.vests, power);
        AfterIncrease(accounts, delegations, expirations, next, k, shares, now, interest);
        StillCovered(accounts, k.0, delta);
        accounts := WithDelegated(accounts, k.0, delta);
      } else {
        if !known || (shares != 0 && shares < minDelegation) {
          return false;
        }
        AfterDecrease(accounts, delegations, expirations, next, k, shares, now, interest);
        expirations, next := Returned(expirations, next, k.0, -delta, now, delegations[k].minTime), next + 1;
        SameAccount(accounts, k.0);
      }
      ReceivedCovered(accounts, k.1, delta);
      accounts := WithReceived(accounts, k.1, delta);
      delegations := Recorded(delegations, k, shares, now, interest);
      ok := true;
    }

    /** reject_vesting_shares_delegation: the borrower gives the shares back; they return to the lender later. */
    method Reject(k: Pair, now: int) returns (ok: bool)
      requires Valid()
      modifies this
      ensures Valid() && (ok <==> k in old(delegations))
      ensures if !ok then
                accounts == old(accounts) && delegations == old(delegations) && expirations == old(expirations)
              else var d := old(delegations)[k];
                   && delegations == old(delegations) - {k} && k.1 in old(accounts)
                   && accounts == WithReceived(old(accounts), k.1, 0 - d.shares)
                   && expirations == Returned(old(expirations), old(next), k.0, d.shares, now, d.minTime)
    {
      hide BooksAgree, RecordsOk, WithDelegated, WithReceived, Returned, Covered;
      if k !in delegations {
        return false;
      }
      PositiveRecord(accounts.Keys, delegations, expirations, next, k);
      AfterDecrease(accounts, delegations, expirations, next, k, 0, now, 0);
      ReceivedCovered(accounts, k.1, 0 - delegations[k].shares);
      var d := delegations[k];
      accounts := WithReceived(accounts, k.1, 0 - d.shares);
      expirations, next := Returned(expirations, next, k.0, d.shares, now, d.minTime), next + 1;
      delegations := delegations - {k};
      ok := true;
    }

    /** clear_expired_delegations: everything overdue leaves the lenders' counters, and nothing else does. */
    method ClearExpired(now: int)
      requires Valid()
      modifies this`accounts, this`expirations
      ensures Valid() && accounts.Keys == old(accounts).Keys
      ensures expirations == Unexpired(old(expirations), now)
      ensures forall a :: a in accounts ==>
                accounts[a] == old(accounts)[a].(delegated := Outgoing(delegations, a) + Returning(expirations, a))
    {
      hide RecordsOk, WithDelegated, BooksAgree, Unexpired, Outgoing, Returning, Covered;
      while exists i :: i in expirations && expirations[i].due < now
        invariant Valid() && accounts.Keys == old(accounts).Keys
        invariant Unexpired(expirations, now) == Unexpired(old(expirations), now)
        invariant forall a :: a in accounts ==> accounts[a] == old(accounts)[a].(delegated := accounts[a].delegated)
        decreases |expirations|
      {
        var i :| i in expirations && expirations[i].due < now;
        AfterExpiry(accounts, delegations, expirations, next, i, now);
        StillCovered(accounts, expirations[i].delegator, 0 - expirations[i].shares);
        accounts := WithDelegated(accounts, expirations[i].delegator, 0 - expirations[i].shares);
        expirations := expirations - {i};
      }
      NoneExpired(expirations, now);
      CountersAre(accounts, delegations, expirations);
    }

    /** account_create_with_delegation: part of the creator's stake is lent to the new account from the start, and the
        fee, worth `feeVests` shares, is its own. */
    method CreateAccount(creator: Name, name: Name, shares: nat, fee: nat, balance: nat, minimum: Minimum, price: Price,
                         now: int, period: int) returns (ok: bool)
      requires Valid() && PriceOk(price)
      modifies this`accounts, this`delegations
      ensures Valid()
      ensures ok <==>
                && creator in old(accounts) && name !in old(accounts) && shares <= Available(old(accounts)[creator])
                && fee <= balance && Sufficient(fee, shares, minimum, price)
      ensures if !ok then accounts == old(accounts) && delegations == old(delegations)
              else var newcomer := Account(InShares(fee, price), 0, shares, 0);
                   var record := Delegation(shares, now + period, 0);
                   && accounts == WithDelegated(old(accounts), creator, shares)[name := newcomer]
                   && delegations == if shares > 0 then old(delegations)[(creator, name) := record]
                                     else old(delegations)
    {
      hide BooksAgree, RecordsOk, WithDelegated, Covered, InShares;
      if creator !in accounts || name in accounts || Available(accounts[creator]) < shares || balance < fee
         || !Sufficient(fee, shares, minimum, price) {
        return false;
      }
      var feeVests := InShares(fee, price);
      AfterCreation(accounts, delegations, expirations, next, creator, name, shares, feeVests, now + period);
      StillCovered(accounts, creator, shares);
      accounts := WithDelegated(accounts, creator, shares);
      NewcomerCovered(accounts, name, feeVests, shares);
      accounts := accounts[name := Account(feeVests, 0, shares, 0)];
      if shares > 0 {
        delegations := delegations[(creator, name) := Delegation(shares, now + period, 0)];
      }
      ok := true;
    }

    /** A lender's part of a curation reward, added to the delegation it came from if that still exists. */
    method RewardLender(k: Pair, shares: nat)
      requires Valid() && k.0 in accounts
      modifies this`accounts, this`delegations
      ensures Valid() && accounts.Keys == old(accounts).Keys
      ensures var paid := old(accounts)[k.0 := old(accounts)[k.0].(vests := old(accounts)[k.0].vests + shares)];
              accounts == if k in old(delegations) then WithReceived(WithDelegated(paid, k.0, shares), k.1, shares)
                          else paid
      ensures delegations == if k in old(delegations) then
                               old(delegations)[k :=
                                                  old(delegations)[k].(shares := old(delegations)[k].shares + shares)]
                             else old(delegations)
    {
      hide BooksAgree, RecordsOk, WithDelegated, WithReceived, Recorded, Covered;
      VestsOnly(accounts, delegations, expirations, k.0, shares, accounts[k.0].withdrawing);
      MoreVestsCovered(accounts, k.0, shares, 0);
      if k in delegations {
        MoreVestsCovered(accounts, k.0, shares, shares);
      }
      accounts := accounts[k.0 := accounts[k.0].(vests := accounts[k.0].vests + shares)];
      PositiveRecord(accounts.Keys, delegations, expirations, next, k);
      if k in delegations {
        AfterIncrease(accounts, delegations, expirations, next, k, delegations[k].shares + shares, 0, 0);
        RecordedAgain(delegations, k, delegations[k].shares + shares);
        ReceivedCovered(WithDelegated(accounts, k.0, shares), k.1, shares);
        accounts := WithReceived(WithDelegated(accounts, k.0, shares), k.1, shares);
        delegations := delegations[k := delegations[k].(shares := delegations[k].shares + shares)];
      }
    }

    /** withdraw_vesting: what is not lent may be withdrawn. `permitted` stands for the checks of fee and rate. */
    method StartWithdrawal(a: Name, shares: nat, permitted: bool) returns (ok: bool)
      requires Valid()
      modifies this`accounts
      ensures Valid()
      ensures ok <==> permitted && a in old(accounts) && shares <= old(accounts)[a].vests - old(accounts)[a].delegated
      ensures accounts == if ok then old(accounts)[a := old(accounts)[a].(withdrawing := shares)] else old(accounts)
    {
      hide BooksAgree, RecordsOk, Covered;
      if !permitted || a !in accounts || accounts[a].vests - accounts[a].delegated < shares {
        return false;
      }
      VestsOnly(accounts, delegations, expirations, a, 0, shares);
      VestsCovered(accounts, a, 0, shares);
      assert accounts[a].(vests := accounts[a].vests + 0, withdrawing := shares) == accounts[a].(withdrawing := shares);
      accounts := accounts[a := accounts[a].(withdrawing := shares)];
      ok := true;
    }

    /** The shares of `a` change: vested ones come in, or part of the running withdrawal goes out. */
    method ChangeVests(a: Name, change: int)
      requires Valid() && a in accounts && 0 - change <= accounts[a].withdrawing
      modifies this`accounts
      ensures Valid()
      ensures accounts == Vested(old(accounts), a, change)
    {
      hide BooksAgree, RecordsOk, Covered;
      var left := accounts[a].withdrawing + if change < 0 then change else 0;
      WithdrawalCovered(accounts, a);
      VestsOnly(accounts, delegations, expirations, a, change, left);
      VestsCovered(accounts, a, change, left);
      accounts := Vested(accounts, a, change);
    }
  }

  function Vested(accounts: Accounts, a: Name, change: int): Accounts
    requires a in accounts
  {
    var h := accounts[a];
    accounts[a := h.(vests := h.vests + change, withdrawing := h.withdrawing + if change < 0 then change else 0)]
  }

  lemma StillCovered(accounts: Accounts, a: Name, change: int)
    requires Covered(accounts) && a in accounts && (change <= 0 || change <= Available(accounts[a]))
    ensures Covered(WithDelegated(accounts, a, change))
  {
    forall b | b in accounts ensures accounts[b] == accounts[b] {
    }
  }

  lemma ReceivedCovered(accounts: Accounts, a: Name, change: int)
    requires Covered(accounts) && a in accounts
    ensures Covered(WithReceived(accounts, a, change))
  {
    forall b | b in accounts ensures accounts[b] == accounts[b] {
    }
  }

  lemma MoreVestsCovered(accounts: Accounts, a: Name, vests: nat, lent: nat)
    requires Covered(accounts) && a in accounts && lent <= vests
    ensures var after := accounts[a := accounts[a].(vests := accounts[a].vests + vests)];
            Covered(after) && Covered(WithDelegated(after, a, lent))
  {
    forall b | b in accounts ensures accounts[b] == accounts[b] {
    }
  }

  lemma WithdrawalCovered(accounts: Accounts, a: Name)
    requires Covered(accounts) && a in accounts
    ensures 0 <= accounts[a].withdrawing && accounts[a].delegated + accounts[a].withdrawing <= accounts[a].vests
  {
  }

  lemma VestsCovered(accounts: Accounts, a: Name, vests: int, withdrawing: int)
    requires Covered(accounts) && a in accounts
    requires 0 <= withdrawing && accounts[a].delegated + withdrawing <= accounts[a].vests + vests
    ensures Covered(accounts[a := accounts[a].(vests := accounts[a].vests + vests, withdrawing := withdrawing)])
  {
    forall b | b in accounts ensures accounts[b] == accounts[b] {
    }
  }

  lemma NewcomerCovered(accounts: Accounts, a: Name, vests: nat, received: nat)
    requires Covered(accounts) && a !in accounts
    ensures Covered(accounts[a := Account(vests, 0, received, 0)])
  {
  }

  function Unexpired(es: Expirations, now: int): Expirations {
    map i | i in es && es[i].due >= now :: es[i]
  }

  lemma NoneExpired(es: Expirations, now: int)
    requires !exists i :: i in es && es[i].due < now
    ensures Unexpired(es, now) == es
  {
    forall i | i in es ensures es[i].due >= now {
    }
  }

  lemma RecordedAgain(ds: Delegations, k: Pair, shares: int)
    requires k in ds && shares > 0
    ensures Recorded(ds, k, shares, 0, 0) == ds[k := ds[k].(shares := shares)] && Current(ds, k) == ds[k].shares
  {
  }

  lemma AfterIncrease(accounts: Accounts, ds: Delegations, es: Expirations, next: nat, k: Pair, shares: int, now: int,
                      interest: nat)
    requires BooksAgree(accounts, ds, es) && RecordsOk(accounts.Keys, ds, es, next)
    requires k.0 in accounts && k.1 in accounts && shares >= 0 && interest <= MAX_INTEREST
    ensures var delta := shares - Current(ds, k);
            var accounts' := WithReceived(WithDelegated(accounts, k.0, delta), k.1, delta);
            var ds' := Recorded(ds, k, shares, now, interest);
            BooksAgree(accounts', ds', es) && RecordsOk(accounts'.Keys, ds', es, next)
  {
    hide BooksAgree, RecordsOk, Recorded;
    Increased(accounts, ds, es, k, shares, now, interest);
    StillOk(accounts.Keys, ds, es, next, k, shares, now, interest);
  }

  lemma AfterDecrease(accounts: Accounts, ds: Delegations, es: Expirations, next: nat, k: Pair, shares: int, now: int,
                      interest: nat)
    requires BooksAgree(accounts, ds, es) && RecordsOk(accounts.Keys, ds, es, next)
    requires k in ds && 0 <= shares <= ds[k].shares && interest <= MAX_INTEREST
    ensures k.0 in accounts && k.1 in accounts
    ensures var accounts' := WithReceived(accounts, k.1, shares - Current(ds, k));
            var ds' := Recorded(ds, k, shares, now, interest);
            var es' := Returned(es, next, k.0, Current(ds, k) - shares, now, ds[k].minTime);
            BooksAgree(accounts', ds', es') && RecordsOk(accounts'.Keys, ds', es', next + 1)
  {
    hide BooksAgree, RecordsOk, Recorded;
    PositiveRecord(accounts.Keys, ds, es, next, k);
    var e := Expiration(k.0, ds[k].shares - shares, Later(now + RETURN_DELAY, ds[k].minTime));
    Decreased(accounts, ds, es, next, k, shares, now, interest, e);
    StillOk(accounts.Keys, ds, es, next, k, shares, now, interest);
    OneMoreReturning(accounts.Keys, Recorded(ds, k, shares, now, interest), es, next, e);
  }

  lemma AfterExpiry(accounts: Accounts, ds: Delegations, es: Expirations, next: nat, i: nat, now: int)
    requires BooksAgree(accounts, ds, es) && RecordsOk(accounts.Keys, ds, es, next) && i in es && es[i].due < now
    ensures es[i].delegator in accounts && es[i].shares >= 0
    ensures var accounts' := WithDelegated(accounts, es[i].delegator, 0 - es[i].shares);
            && BooksAgree(accounts', ds, es - {i}) && RecordsOk(accounts'.Keys, ds, es - {i}, next)
            && forall a :: a in accounts ==> accounts'[a] == accounts[a].(delegated := accounts'[a].delegated)
    ensures Unexpired(es - {i}, now) == Unexpired(es, now) && |es - {i}| < |es|
  {
    hide BooksAgree;
    assert es[i] == es[i];
    Expired(accounts, ds, es, i);
    FewerReturning(accounts.Keys, ds, es, next, i, now);
  }

  lemma FewerReturning(names: set<Name>, ds: Delegations, es: Expirations, next: nat, i: nat, now: int)
    requires RecordsOk(names, ds, es, next) && i in es && es[i].due < now
    ensures RecordsOk(names, ds, es - {i}, next) && Unexpired(es - {i}, now) == Unexpired(es, now) && |es - {i}| < |es|
  {
    assert (es - {i}).Keys == es.Keys - {i};
    forall j | j in es - {i} ensures (es - {i})[j].shares >= 0 && (es - {i})[j].delegator in names && j < next {
      assert es[j] == es[j];
    }
  }

  lemma CountersAre(accounts: Accounts, ds: Delegations, es: Expirations)
    requires BooksAgree(accounts, ds, es)
    ensures forall a :: a in accounts ==> accounts[a].delegated == Outgoing(ds, a) + Returning(es, a)
  {
    hide Outgoing, Returning, Incoming;
  }

  lemma AfterCreation(accounts: Accounts, ds: Delegations, es: Expirations, next: nat, creator: Name, name: Name,
                      shares: nat, vests: nat, time: int)
    requires BooksAgree(accounts, ds, es) && RecordsOk(accounts.Keys, ds, es, next) && creator in accounts
    requires name !in accounts
    ensures var accounts' := WithDelegated(accounts, creator, shares)[name := Account(vests, 0, shares, 0)];
            var ds' := if shares > 0 then ds[(creator, name) := Delegation(shares, time, 0)] else ds;
            BooksAgree(accounts', ds', es) && RecordsOk(accounts'.Keys, ds', es, next)
  {
    hide Outgoing, Incoming, Returning, RecordsOk;
    Unknown(accounts, ds, es, next, name);
    var k := (creator, name);
    NewPair(accounts.Keys, ds, es, next, k);
    NewRecord(accounts.Keys, ds, es, next, k, shares, time);
    var accounts' := WithDelegated(accounts, creator, shares)[name := Account(vests, 0, shares, 0)];
    assert accounts'.Keys == accounts.Keys + {name};
    var ds' := if shares > 0 then ds[k := Delegation(shares, time, 0)] else ds;
    forall a | a in accounts'
      ensures accounts'[a].delegated == Outgoing(ds', a) + Returning(es, a) && accounts'[a].received == Incoming(ds', a)
    {
      if shares > 0 {
        DelegationPut(ds, k, Delegation(shares, time, 0), a);
      }
      if a in accounts {
        assert accounts[a] == accounts[a];
      }
    }
  }

  lemma NewPair(names: set<Name>, ds: Delegations, es: Expirations, next: nat, k: Pair)
    requires RecordsOk(names, ds, es, next) && k.1 !in names
    ensures k !in ds
  {
    forall j | j in ds ensures j.1 in names {
      assert ds[j] == ds[j];
    }
  }

  lemma NewRecord(names: set<Name>, ds: Delegations, es: Expirations, next: nat, k: Pair, shares: nat, time: int)
    requires RecordsOk(names, ds, es, next) && k.0 in names
    ensures RecordsOk(names + {k.1}, if shares > 0 then ds[k := Delegation(shares, time, 0)] else ds, es, next)
  {
    var ds' := if shares > 0 then ds[k := Delegation(shares, time, 0)] else ds;
    forall j | j in ds'
      ensures ds'[j].shares > 0 && ds'[j].interest <= MAX_INTEREST && j.0 in names + {k.1} && j.1 in names + {k.1}
    {
      if j in ds && j != k {
        assert ds[j] == ds'[j];
      }
    }
  }

  lemma VestsOnly(accounts: Accounts, ds: Delegations, es: Expirations, a: Name, vests: int, withdrawing: int)
    requires BooksAgree(accounts, ds, es) && a in accounts
    ensures var accounts' :=
              accounts[a := accounts[a].(vests := accounts[a].vests + vests, withdrawing := withdrawing)];
            BooksAgree(accounts', ds, es) && accounts'.Keys == accounts.Keys
  {
    hide Outgoing, Incoming, Returning;
    var accounts' := accounts[a := accounts[a].(vests := accounts[a].vests + vests, withdrawing := withdrawing)];
    forall b | b in accounts'
      ensures accounts'[b].delegated == Outgoing(ds, b) + Returning(es, b) && accounts'[b].received == Incoming(ds, b)
    {
      assert accounts[b] == accounts[b];
    }
  }

  lemma PositiveRecord(names: set<Name>, ds: Delegations, es: Expirations, next: nat, k: Pair)
    requires RecordsOk(names, ds, es, next)
    ensures k in ds ==> ds[k].shares > 0 && k.0 in names && k.1 in names
    ensures next !in es
  {
    forall i | i in es ensures i < next {
      assert es[i] == es[i];
    }
  }

  lemma StillOk(names: set<Name>, ds: Delegations, es: Expirations, next: nat, k: Pair, shares: int, now: int,
                interest: nat)
    requires RecordsOk(names, ds, es, next) && k.0 in names && k.1 in names && interest <= MAX_INTEREST
    ensures RecordsOk(names, Recorded(ds, k, shares, now, interest), es, next)
  {
    var ds' := Recorded(ds, k, shares, now, interest);
    forall j | j in ds' ensures ds'[j].shares > 0 && ds'[j].interest <= MAX_INTEREST && j.0 in names && j.1 in names {
      if j in ds {
        assert ds[j] == ds[j];
      }
    }
  }

  lemma OneMoreReturning(names: set<Name>, ds: Delegations, es: Expirations, next: nat, e: Expiration)
    requires RecordsOk(names, ds, es, next) && e.shares >= 0 && e.delegator in names
    ensures RecordsOk(names, ds, es[next := e], next + 1)
  {
    forall i | i in es ensures es[i].shares >= 0 && es[i].delegator in names && i < next {
    }
  }

  lemma SameAccount(accounts: Accounts, a: Name)
    requires a in accounts
    ensures WithDelegated(accounts, a, 0) == accounts
  {
  }
}
