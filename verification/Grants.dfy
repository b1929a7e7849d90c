/** A sequence of grants: tokens vested for one account after another, each at the price that those before it leave. */
module Grants {
  import opened Common
  import opened LedgerState
  import opened LedgerSteps
  import opened LedgerPayments
  import opened SharePrice

  datatype Grant = Grant(to: Name, tokens: nat)

  function PoolThrough(p: Pool, grants: seq<Grant>): Pool {
    if grants == [] then p else Enriched(PoolThrough(p, grants[..|grants| - 1]), grants[|grants| - 1].tokens)
  }

  /** The shares that the grants bring to `a`. */
  function SharesTo(p: Pool, grants: seq<Grant>, a: Name): int {
    if grants == [] then 0
    else
      var before, last := grants[..|grants| - 1], grants[|grants| - 1];
      SharesTo(p, before, a) + if last.to == a then Issue(PoolThrough(p, before), last.tokens) else 0
  }

  function TokensIn(grants: seq<Grant>): nat {
    if grants == [] then 0 else TokensIn(grants[..|grants| - 1]) + grants[|grants| - 1].tokens
  }

  /** The tokens granted to `a`. */
  function TokensFor(grants: seq<Grant>, a: Name): nat {
    if grants == [] then 0
    else TokensFor(grants[..|grants| - 1], a) + if grants[|grants| - 1].to == a then grants[|grants| - 1].tokens else 0
  }

  /** Every account has exactly the shares that were granted to it, and nothing else has changed. */
  ghost predicate Granted(s: State, r: State, grants: seq<Grant>) {
    && r.holders.Keys == s.holders.Keys && PoolOf(r) == PoolThrough(PoolOf(s), grants)
    && r.steemSupply == s.steemSupply && r.sbdSupply == s.sbdSupply && r.withdrawals == s.withdrawals
    && forall a {:trigger r.holders[a]} :: a in s.holders ==>
         r.holders[a] == s.holders[a].(vests := s.holders[a].vests + SharesTo(PoolOf(s), grants, a))
  }

  lemma NothingGranted(s: State, grants: seq<Grant>)
    requires grants == []
    ensures Granted(s, s, grants)
  {
  }

  lemma LastGrant(p: Pool, grants: seq<Grant>, a: Name, tokens: nat)
    ensures var more := grants + [Grant(a, tokens)];
            && PoolThrough(p, more) == Enriched(PoolThrough(p, grants), tokens)
            && forall b {:trigger SharesTo(p, more, b)} :: (SharesTo(p, more, b) == SharesTo(p, grants, b)
                 + if a == b then Issue(PoolThrough(p, grants), tokens) else 0)
  {
    hide Issue, Enriched;
    var more := grants + [Grant(a, tokens)];
    assert more[..|more| - 1] == grants;
  }

  /** One more grant. */
  lemma OneMoreGrant(s: State, r: State, grants: seq<Grant>, a: Name, tokens: nat)
    requires Granted(s, r, grants) && InOrder(r) && a in r.holders
    ensures Granted(s, VestingCreated(r, a, tokens), grants + [Grant(a, tokens)])
  {
    hide InOrder, VestingCreated, Issue, SharesTo, PoolThrough;
    var r', more := VestingCreated(r, a, tokens), grants + [Grant(a, tokens)];
    LastGrant(PoolOf(s), grants, a, tokens);
    VestingPays(r, a, tokens);
    VestingRecords(r, a, tokens);
    forall b | b in s.holders
      ensures r'.holders[b] == s.holders[b].(vests := s.holders[b].vests + SharesTo(PoolOf(s), more, b))
    {
      assert r.holders[b] == s.holders[b].(vests := s.holders[b].vests + SharesTo(PoolOf(s), grants, b));
    }
  }

  /** Whoever is granted nothing gets nothing. */
  lemma {:induction false} NobodyElse(p: Pool, grants: seq<Grant>, a: Name)
    requires forall i :: 0 <= i < |grants| ==> grants[i].to != a
    ensures SharesTo(p, grants, a) == 0 && TokensFor(grants, a) == 0
  {
    if grants != [] {
      NobodyElse(p, grants[..|grants| - 1], a);
    }
  }

  lemma {:induction false} TokensAdd(a: seq<Grant>, b: seq<Grant>)
    ensures TokensIn(a + b) == TokensIn(a) + TokensIn(b)
    ensures forall n :: TokensFor(a + b, n) == TokensFor(a, n) + TokensFor(b, n)
    decreases |b|
  {
    if b == [] {
      assert a + b == a;
    } else {
      TokensAdd(a, b[..|b| - 1]);
      assert (a + b)[..|a + b| - 1] == a + b[..|b| - 1];
    }
  }

  /** Grants never lower the price, so nobody is diluted by them. */
  lemma {:induction false} GrantsKeepPrice(p: Pool, grants: seq<Grant>)
    requires Backed(p) && p.vests > 0
    ensures var q := PoolThrough(p, grants);
            Backed(q) && q.vests >= p.vests && NoCheaper(p, q) && q.fund == p.fund + TokensIn(grants)
  {
    hide Issue;
    if grants != [] {
      var before := grants[..|grants| - 1];
      GrantsKeepPrice(p, before);
      DepositKeepsPrice(PoolThrough(p, before), grants[|grants| - 1].tokens);
      PriceChain(p, PoolThrough(p, before), PoolThrough(p, grants));
    }
  }
}
