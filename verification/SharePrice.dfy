/** What a vesting share costs and is worth. New shares are issued, and old ones cashed out, at the price of the whole
    pool, rounded to the favour of those who stay: nobody is diluted, and nobody gains by going in and out. */
module SharePrice {
  import opened Arith
  import opened Common
  import opened Market
  import opened LedgerState
  import opened LedgerSteps
  import opened LedgerPayments
  import opened VestingRoutes

  /** Shares are backed. */
  predicate Backed(p: Pool) {
    p.vests >= 0 && p.fund >= 0 && (p.vests > 0 ==> p.fund > 0)
  }

  /** The shares issued for `tokens`. */
  function Issue(p: Pool, tokens: int): int {
    if p.fund >= 0 then SharesFor(tokens, p.vests, p.fund) else 0
  }

  function Enriched(p: Pool, tokens: int): Pool {
    Pool(p.vests + Issue(p, tokens), p.fund + tokens)
  }

  function Drawn(p: Pool, vests: int): Pool {
    Pool(p.vests - vests, p.fund - Worth(p, vests))
  }

  /** A share of q is worth at least what a share of p is. */
  predicate NoCheaper(p: Pool, q: Pool) {
    p.fund * q.vests <= q.fund * p.vests
  }

  // ----- the price -----

  /** A thousand shares a token at the start; afterwards as many as leave the price as it is, rounded down. */
  lemma IssueAtPrice(p: Pool, tokens: nat)
    requires Backed(p)
    ensures p.vests == 0 ==> Issue(p, tokens) == 1000 * tokens
    ensures p.vests > 0 ==> IsFloor(Issue(p, tokens), tokens * p.vests, p.fund)
  {
    if p.vests == 0 {
      QuotientIs(tokens * 1_000_000, 1_000, tokens * 1_000, 0);
    } else {
      FloorIs(tokens * p.vests, p.fund);
    }
  }

  lemma WorthAtPrice(p: Pool, vests: nat)
    requires Backed(p) && p.vests > 0
    ensures IsFloor(Worth(p, vests), vests * p.fund, p.vests)
  {
    FloorIs(vests * p.fund, p.vests);
  }

  // ----- nobody is diluted -----

  lemma DepositKeepsPrice(p: Pool, tokens: nat)
    requires Backed(p) && p.vests > 0
    ensures NoCheaper(p, Enriched(p, tokens)) && Backed(Enriched(p, tokens)) && Issue(p, tokens) >= 0
  {
    IssueAtPrice(p, tokens);
    var got := Issue(p, tokens);
    NewSharesNonNegative(tokens, p.vests, p.fund);
    assert p.fund * (p.vests + got) == p.fund * p.vests + p.fund * got;
    assert (p.fund + tokens) * p.vests == p.fund * p.vests + tokens * p.vests;
  }

  lemma DrawKeepsPrice(p: Pool, vests: nat)
    requires Backed(p) && vests <= p.vests && p.vests > 0
    ensures NoCheaper(p, Drawn(p, vests)) && Backed(Drawn(p, vests))
  {
    WorthAtPrice(p, vests);
    CashOutWithinFund(vests, p.vests, p.fund);
    var got := Worth(p, vests);
    assert p.fund * (p.vests - vests) == p.fund * p.vests - vests * p.fund;
    assert (p.fund - got) * p.vests == p.fund * p.vests - p.vests * got;
  }

  lemma PriceChain(p: Pool, q: Pool, r: Pool)
    requires NoCheaper(p, q) && NoCheaper(q, r) && p.vests >= 0 && q.vests > 0 && r.vests >= 0
    ensures NoCheaper(p, r)
  {
    MulMono(p.fund * q.vests, q.fund * p.vests, r.vests);
    MulMono(q.fund * r.vests, r.fund * q.vests, p.vests);
    assert p.fund * q.vests * r.vests == (p.fund * r.vests) * q.vests;
    assert q.fund * p.vests * r.vests == q.fund * r.vests * p.vests;
    assert r.fund * q.vests * p.vests == (r.fund * p.vests) * q.vests;
    Cancel(p.fund * r.vests, r.fund * p.vests, q.vests);
  }

  lemma DrawChain(p: Pool, q: Pool, vests: nat)
    requires Backed(p) && Backed(q) && p.vests > 0 && NoCheaper(p, q) && vests <= q.vests
    ensures NoCheaper(p, Drawn(q, vests)) && Backed(Drawn(q, vests))
  {
    if q.vests > 0 {
      DrawKeepsPrice(q, vests);
      PriceChain(p, q, Drawn(q, vests));
    } else {
      assert Worth(q, vests) == 0;
      assert q.fund * p.vests >= 0;
    }
  }

  /** At a price that has not fallen the same shares are worth no less. */
  lemma WorthNoLess(p: Pool, q: Pool, vests: nat)
    requires Backed(p) && Backed(q) && p.vests > 0 && q.vests > 0 && NoCheaper(p, q)
    ensures Worth(p, vests) <= Worth(q, vests)
  {
    BetterPriceBuysMore(vests, p.fund, p.vests, q.fund, q.vests);
  }

  /** Shares bought and sold again at once give back no more than was paid for them. */
  lemma NothingWonInAndOut(p: Pool, tokens: nat)
    requires Backed(p) && p.vests > 0
    ensures Worth(Enriched(p, tokens), Issue(p, tokens)) <= tokens
  {
    var q, got := Enriched(p, tokens), Issue(p, tokens);
    IssueAtPrice(p, tokens);
    DepositKeepsPrice(p, tokens);
    WorthAtPrice(q, got);
    assert got * (p.fund + tokens) == p.fund * got + tokens * got;
    assert tokens * (p.vests + got) == tokens * p.vests + tokens * got;
    assert Worth(q, got) * q.vests == q.vests * Worth(q, got);
    Cancel(Worth(q, got), tokens, q.vests);
  }

  // ----- what create_vesting does -----

  /** Only the receiver changes, by exactly the shares issued, and the pool with them. */
  lemma VestingPays(s: State, a: Name, tokens: nat)
    requires InOrder(s) && a in s.holders
    ensures var r := VestingCreated(s, a, tokens);
            && r.holders == s.holders[a := s.holders[a].(vests := s.holders[a].vests + Issue(PoolOf(s), tokens))]
            && PoolOf(r) == Enriched(PoolOf(s), tokens) && Backed(PoolOf(s))
            && r.steemSupply == s.steemSupply && r.sbdSupply == s.sbdSupply
  {
    hide GapsMoved, SharesFor;
    NewSharesNonNegative(tokens, s.totalVests, s.vestFund);
    assert HolderOk(s.holders[a], s.env.now);
  }

  /** Hence every holder's shares are worth at least as much as before. */
  lemma VestingDilutesNobody(s: State, a: Name, tokens: nat, b: Name)
    requires InOrder(s) && a in s.holders && b in s.holders && s.totalVests > 0
    ensures var r := VestingCreated(s, a, tokens);
            Worth(PoolOf(r), r.holders[b].vests) >= Worth(PoolOf(s), s.holders[b].vests)
  {
    var r := VestingCreated(s, a, tokens);
    assert HolderOk(s.holders[b], s.env.now);
    hide InOrder, VestingCreated;
    VestingPays(s, a, tokens);
    DepositKeepsPrice(PoolOf(s), tokens);
    WorthNoLess(PoolOf(s), PoolOf(r), s.holders[b].vests);
    MoreSharesWorthMore(PoolOf(r), s.holders[b].vests, r.holders[b].vests);
  }

  lemma MoreSharesWorthMore(p: Pool, x: nat, y: nat)
    requires Backed(p) && p.vests > 0 && x <= y
    ensures Worth(p, x) <= Worth(p, y)
  {
    ConvertMono(x, y, p.fund, p.vests);
  }

  // ----- from state to state -----

  /** A share is worth no less than before, if there were any. */
  predicate PriceKept(s: State, r: State) {
    s.totalVests > 0 ==> NoCheaper(PoolOf(s), PoolOf(r))
  }

  /** Shares have only been added, at no lower price. */
  predicate SharesAdded(s: State, r: State) {
    s.totalVests > 0 ==> r.totalVests >= s.totalVests && NoCheaper(PoolOf(s), PoolOf(r))
  }

  lemma SharesAddedTwice(s: State, t: State, r: State)
    requires SharesAdded(s, t) && SharesAdded(t, r)
    ensures SharesAdded(s, r)
  {
    if s.totalVests > 0 {
      PriceChain(PoolOf(s), PoolOf(t), PoolOf(r));
    }
  }

  lemma SamePoolKeepsPrice(s: State, r: State)
    requires SamePool(s, r)
    ensures PriceKept(s, r)
  {
  }

  /** Vesting keeps the price, also after the fund has grown by itself. */
  lemma VestingKeepsPrice(s: State, t: State, a: Name, tokens: nat)
    requires InOrder(s) && InOrder(t) && a in t.holders && t.totalVests == s.totalVests && t.vestFund >= s.vestFund
    ensures PriceKept(s, VestingCreated(t, a, tokens))
  {
    hide InOrder, VestingCreated;
    VestingPays(t, a, tokens);
    if s.totalVests > 0 {
      var p, q := PoolOf(s), PoolOf(t);
      MulMono(p.fund, q.fund, p.vests);
      DepositKeepsPrice(q, tokens);
      PriceChain(p, q, Enriched(q, tokens));
    }
  }

  lemma VestingRecords(s: State, a: Name, tokens: nat)
    requires InOrder(s) && a in s.holders
    ensures SameRecords(s, VestingCreated(s, a, tokens))
  {
    hide GapsMoved, SharesFor;
    NewSharesNonNegative(tokens, s.totalVests, s.vestFund);
  }

  lemma DrawnKeepsPrice(s: State, vests: nat)
    requires InOrder(s) && vests <= s.totalVests
    ensures var p := PoolOf(s); PoolOf(FundDrawn(s, vests)) == Drawn(p, vests)
    ensures PriceKept(s, FundDrawn(s, vests))
  {
    hide GapsMoved;
    if s.totalVests > 0 {
      DrawKeepsPrice(PoolOf(s), vests);
    }
  }

  lemma {:induction false} RoutesKeepPrice(p: Pool, routes: seq<Route>, amount: nat, n: nat)
    requires n <= |routes| && Backed(p) && p.vests > 0 && Deposited(routes[..n], amount, false) <= p.vests
    ensures var q := PoolAfter(p, routes, amount, n);
            q.vests == p.vests - Deposited(routes[..n], amount, false) && Backed(q) && NoCheaper(p, q)
  {
    hide Worth, Deposit;
    if n > 0 {
      assert routes[..n][..n - 1] == routes[..n - 1];
      RoutesKeepPrice(p, routes, amount, n - 1);
      if !routes[n - 1].autoVest {
        DrawChain(p, PoolAfter(p, routes, amount, n - 1), Deposit(amount, routes[n - 1].percent));
      }
    }
  }

  /** A withdrawal keeps the price through all its routes and the rest. */
  lemma WithdrawalKeepsPrice(s: State, r: State, routes: seq<Route>, amount: nat, rest: nat)
    requires Backed(PoolOf(s)) && Deposited(routes, amount, false) + rest <= s.totalVests
    requires var q := PoolAfter(PoolOf(s), routes, amount, |routes|);
             PoolOf(r) == Pool(q.vests - rest, q.fund - Worth(q, rest))
    ensures PriceKept(s, r)
  {
    hide Worth, PoolAfter, Deposited;
    if s.totalVests > 0 {
      assert routes[..|routes|] == routes;
      RoutesKeepPrice(PoolOf(s), routes, amount, |routes|);
      DrawChain(PoolOf(s), PoolAfter(PoolOf(s), routes, amount, |routes|), rest);
    }
  }

  // ----- over a run -----

  /** From each state to the next the price is kept. */
  ghost predicate EachKeepsPrice(states: seq<State>) {
    forall i {:trigger states[i]} :: 0 < i < |states| ==> PriceKept(states[i - 1], states[i])
  }

  lemma OneMoreKept(states: seq<State>, r: State)
    requires states != [] && EachKeepsPrice(states) && PriceKept(states[|states| - 1], r)
    ensures EachKeepsPrice(states + [r])
  {
    hide PriceKept;
    var more := states + [r];
    forall i | 0 < i < |more| ensures PriceKept(more[i - 1], more[i]) {
      if i < |states| {
        assert more[i] == states[i];
      }
    }
  }

  /** Between any two moments of a run throughout which there are shares, the price has not fallen: shares held all the
      time are worth no less at the end. */
  lemma {:induction false} PriceNeverFalls(states: seq<State>, i: nat, j: nat, vests: nat)
    requires EachKeepsPrice(states) && i <= j < |states|
    requires forall k :: i <= k <= j ==> states[k].totalVests > 0 && Backed(PoolOf(states[k]))
    ensures NoCheaper(PoolOf(states[i]), PoolOf(states[j]))
    ensures Worth(PoolOf(states[i]), vests) <= Worth(PoolOf(states[j]), vests)
    decreases j
  {
    hide Worth;
    if i < j {
      PriceNeverFalls(states, i, j - 1, vests);
      assert PriceKept(states[j - 1], states[j]);
      PriceChain(PoolOf(states[i]), PoolOf(states[j - 1]), PoolOf(states[j]));
      WorthNoLess(PoolOf(states[i]), PoolOf(states[j]), vests);
    }
  }

  /** Between any two moments with shares all the time in between, the price has not fallen. */
  ghost predicate PriceHolds(states: seq<State>) {
    forall i, j {:trigger states[i], states[j]} ::
      0 <= i <= j < |states| && (forall k :: i <= k <= j ==> states[k].totalVests > 0) ==>
        NoCheaper(PoolOf(states[i]), PoolOf(states[j]))
  }

  lemma RunHoldsPrice(states: seq<State>)
    requires EachKeepsPrice(states) && forall k :: 0 <= k < |states| ==> Backed(PoolOf(states[k]))
    ensures PriceHolds(states)
  {
    hide NoCheaper, Backed, EachKeepsPrice;
    forall i, j | 0 <= i <= j < |states| && (forall k :: i <= k <= j ==> states[k].totalVests > 0)
      ensures NoCheaper(PoolOf(states[i]), PoolOf(states[j]))
    {
      PriceNeverFalls(states, i, j, 0);
    }
  }

  /** Once every share is gone the price starts anew, and may be lower than it was. */
  lemma PriceStartsAnew()
    ensures var p := Pool(1, 5); var q := Enriched(Drawn(p, 1), 1);
            Backed(p) && Drawn(p, 1) == Pool(0, 0) && q == Pool(1000, 1) && !NoCheaper(p, q)
  {
    IssueAtPrice(Pool(0, 0), 1);
  }
}
