/** The interest rates that a vote records for those who lent shares to the voter: a lender's part of the voter's stake,
    times the interest agreed on. Together they leave part of every reward to the voter. */
module VoteRates {
  import opened Arith
  import opened Common
  import opened MapSums
  import opened DelegationBooks
  import opened Delegating
  import opened Curation
  import opened CashoutSteps

  /** The index of delegations by borrower: all of one borrower's, each once. */
  ghost predicate Received(order: seq<Pair>, ds: Delegations, voter: Name) {
    && (forall i, j :: 0 <= i < j < |order| ==> order[i] != order[j])
    && forall k :: k in order <==> k in ds && k.1 == voter
  }

  function RateOf(d: Delegation, effective: nat): (r: nat)
    requires d.shares >= 0 && effective > 0
  {
    FloorAtLeast(d.shares * d.interest, effective, 0);
    d.shares * d.interest / effective
  }

  /** The lender's part of the voter's effective shares, times the interest they agreed on, rounded down. */
  lemma RateIsShare(d: Delegation, effective: nat)
    requires d.shares >= 0 && effective > 0
    ensures IsFloor(RateOf(d, effective), d.shares * d.interest, effective)
  {
    FloorIs(d.shares * d.interest, effective);
  }

  /** The rates from the first n delegations; a rate of zero is not recorded. */
  function Rates(order: seq<Pair>, ds: Delegations, effective: nat, n: nat): seq<Share>
    requires n <= |order| && effective > 0 && forall k :: k in order ==> k in ds && ds[k].shares >= 0
  {
    if n == 0 then []
    else
      var rates, rate := Rates(order, ds, effective, n - 1), RateOf(ds[order[n - 1]], effective);
      if rate > 0 then rates + [Share(order[n - 1].0, rate)] else rates
  }

  /** Part of vote_evaluator: what the vote of `voter` records. */
  method CollectRates(lending: Lending, voter: Name, order: seq<Pair>) returns (rates: seq<Share>)
    requires lending.Valid() && voter in lending.accounts && Received(order, lending.delegations, voter)
    ensures Sharing(rates) && Known(rates, lending.accounts.Keys) && Percents(rates, |rates|) <= MAX_INTEREST
    ensures lending.accounts[voter].received == 0 ==> rates == []
    ensures var effective := Effective(lending.accounts[voter]);
            lending.accounts[voter].received > 0 ==>
              && effective > 0 &&
                 (forall k :: k in order ==> k in lending.delegations && lending.delegations[k].shares >= 0)
              && rates == Rates(order, lending.delegations, effective, |order|)
  {
    hide BooksAgree, RecordsOk, Covered, Incoming, Outgoing;
    var ds, account := lending.delegations, lending.accounts[voter];
    rates := [];
    StakeOf(lending, voter, order);
    if account.received > 0 {
      var effective := Effective(account);
      for n := 0 to |order|
        invariant rates == Rates(order, ds, effective, n)
      {
        var rate := RateOf(ds[order[n]], effective);
        if rate > 0 {
          rates := rates + [Share(order[n].0, rate)];
        }
      }
      RatesShare(lending.accounts, ds, order, voter, effective);
    }
  }

  /** What the voter has received is the sum of the records, and is at most the stake voted with. */
  lemma StakeOf(lending: Lending, voter: Name, order: seq<Pair>)
    requires lending.Valid() && voter in lending.accounts && Received(order, lending.delegations, voter)
    ensures var account := lending.accounts[voter];
            && account.received == Incoming(lending.delegations, voter) && 0 <= account.received <= Effective(account)
            && forall k :: k in order ==>
                 && k in lending.delegations && k.1 == voter && k.0 in lending.accounts
                 && 0 < lending.delegations[k].shares && lending.delegations[k].interest <= MAX_INTEREST
  {
    hide Incoming, Outgoing, Returning;
    forall k | k in order
      ensures lending.delegations[k].shares > 0 && k.0 in lending.accounts
      ensures lending.delegations[k].interest <= MAX_INTEREST
    {
      assert k in lending.delegations && lending.delegations[k] == lending.delegations[k];
    }
    IncomingNonNegative(lending.accounts.Keys, lending.delegations, lending.expirations, lending.next, voter);
  }

  lemma IncomingNonNegative(names: set<Name>, ds: Delegations, es: Expirations, next: nat, a: Name)
    requires RecordsOk(names, ds, es, next)
    ensures Incoming(ds, a) >= 0
  {
    var parts := Group(Lent(ds), Borrowers(ds), a);
    forall k | k in parts ensures parts[k] >= 0 {
      assert ds[k] == ds[k];
    }
    SumNonNegative(parts);
  }

  // ----- the rates share at most what was agreed -----

  function SharesOf(order: seq<Pair>, ds: Delegations, n: nat): int
    requires n <= |order| && forall k :: k in order ==> k in ds
  {
    if n == 0 then 0 else SharesOf(order, ds, n - 1) + ds[order[n - 1]].shares
  }

  lemma RatesShare(accounts: Accounts, ds: Delegations, order: seq<Pair>, voter: Name, effective: nat)
    requires Received(order, ds, voter) && effective > 0 && Incoming(ds, voter) <= effective
    requires forall k :: k in order ==> k in ds && k.0 in accounts && 0 < ds[k].shares && ds[k].interest <= MAX_INTEREST
    ensures var rates := Rates(order, ds, effective, |order|);
            Sharing(rates) && Known(rates, accounts.Keys) && Percents(rates, |rates|) <= MAX_INTEREST
  {
    hide Rates, Percents, Incoming;
    var rates := Rates(order, ds, effective, |order|);
    RatesWithin(accounts.Keys, ds, order, effective, |order|);
    AllReceived(ds, order, voter);
    MulMono(Incoming(ds, voter), effective, MAX_INTEREST);
    Cancel(Percents(rates, |rates|), MAX_INTEREST, effective);
  }

  lemma {:induction false} RatesWithin(names: set<Name>, ds: Delegations, order: seq<Pair>, effective: nat, n: nat)
    requires n <= |order| && effective > 0
    requires forall k :: k in order ==> k in ds && k.0 in names && 0 < ds[k].shares && ds[k].interest <= MAX_INTEREST
    ensures var rates := Rates(order, ds, effective, n);
            Known(rates, names) && Percents(rates, |rates|) * effective <= SharesOf(order, ds, n) * MAX_INTEREST
  {
    hide RateOf, Percents;
    if n == 0 {
      NoPercents(Rates(order, ds, effective, 0));
    } else {
      RatesWithin(names, ds, order, effective, n - 1);
      var before, d := Rates(order, ds, effective, n - 1), ds[order[n - 1]];
      var rate := RateOf(d, effective);
      OneRate(d, effective);
      LastPercent(before, Share(order[n - 1].0, rate));
      var rates := Rates(order, ds, effective, n);
      TwoParts(Percents(rates, |rates|), Percents(before, |before|), rate, effective, SharesOf(order, ds, n - 1),
               d.shares);
    }
  }

  lemma NoPercents(shares: seq<Share>)
    requires shares == []
    ensures Percents(shares, |shares|) == 0
  {
  }

  lemma TwoParts(whole: int, part: int, rate: int, effective: int, shares: int, more: int)
    requires whole <= part + rate && effective >= 0
    requires part * effective <= shares * MAX_INTEREST && rate * effective <= more * MAX_INTEREST
    ensures whole * effective <= (shares + more) * MAX_INTEREST
  {
    MulMono(whole, part + rate, effective);
    Distribute(part, rate, effective);
  }

  lemma OneRate(d: Delegation, effective: nat)
    requires effective > 0 && d.shares > 0 && d.interest <= MAX_INTEREST
    ensures RateOf(d, effective) * effective <= d.shares * MAX_INTEREST
  {
    FloorBounds(d.shares * d.interest, effective);
    MulMono(d.interest, MAX_INTEREST, d.shares);
  }

  lemma Distribute(x: int, y: int, z: int)
    ensures (x + y) * z == x * z + y * z
  {
  }

  lemma LastPercent(shares: seq<Share>, share: Share)
    ensures Percents(shares + [share], |shares| + 1) <= Percents(shares, |shares|) + share.percent
  {
    SamePercents(shares, shares + [share], |shares|);
  }

  lemma {:induction false} SamePercents(a: seq<Share>, b: seq<Share>, n: nat)
    requires n <= |a| <= |b| && a == b[..|a|]
    ensures Percents(a, n) == Percents(b, n)
  {
    if n > 0 {
      SamePercents(a, b, n - 1);
    }
  }

  /** The records of the index are all that the borrower has received. */
  lemma AllReceived(ds: Delegations, order: seq<Pair>, voter: Name)
    requires Received(order, ds, voter)
    ensures SharesOf(order, ds, |order|) == Incoming(ds, voter)
  {
    hide Sum;
    var parts := Group(Lent(ds), Borrowers(ds), voter);
    forall k ensures k in order <==> k in parts {
    }
    SumInOrder(parts, ds, order, |order|);
    assert order[..|order|] == order;
    assert Among(parts, order[..|order|]) == parts;
  }

  ghost function Among(parts: map<Pair, int>, keys: seq<Pair>): map<Pair, int> {
    map k | k in parts && k in keys :: parts[k]
  }

  lemma {:induction false} SumInOrder(parts: map<Pair, int>, ds: Delegations, order: seq<Pair>, n: nat)
    requires n <= |order| && forall i, j :: 0 <= i < j < |order| ==> order[i] != order[j]
    requires forall k :: k in order ==> k in parts && k in ds && parts[k] == ds[k].shares
    ensures Sum(Among(parts, order[..n])) == SharesOf(order, ds, n)
  {
    hide Sum, Among;
    if n == 0 {
      NobodyAmong(parts, order[..0]);
    } else {
      SumInOrder(parts, ds, order, n - 1);
      assert order[..n] == order[..n - 1] + [order[n - 1]];
      assert order[n - 1] !in order[..n - 1];
      OneMoreAmong(parts, order[..n - 1], order[n - 1]);
    }
  }

  lemma NobodyAmong(parts: map<Pair, int>, keys: seq<Pair>)
    requires keys == []
    ensures Sum(Among(parts, keys)) == 0
  {
    assert Among(parts, keys) == map[];
  }

  lemma OneMoreAmong(parts: map<Pair, int>, keys: seq<Pair>, k: Pair)
    requires k in parts && k !in keys
    ensures Sum(Among(parts, keys + [k])) == Sum(Among(parts, keys)) + parts[k]
  {
    hide Sum;
    SumUpdate(Among(parts, keys), k, parts[k]);
    assert Among(parts, keys + [k]) == Among(parts, keys)[k := parts[k]];
  }
}
