/** The counter of savings withdrawals that an account carries always equals the number of its pending requests. */
module Requests {
  import opened Common
  import opened LedgerState
  import opened LedgerSteps

  /** STEEMIT_SAVINGS_WITHDRAW_REQUEST_LIMIT */
  const REQUEST_LIMIT := 100

  /** The pending requests of `a`. */
  function Asked(withdrawals: Pendings, a: Name): set<Key> {
    set k | k in withdrawals && k.0 == a
  }

  /** Every counter is exact, and nobody has more requests than allowed. */
  ghost predicate Counted(s: State) {
    forall a {:trigger s.holders[a]} :: a in s.holders ==>
      s.holders[a].requests == |Asked(s.withdrawals, a)| <= REQUEST_LIMIT
  }

  ghost predicate CountsKept(s: State, r: State) {
    Counted(s) ==> Counted(r)
  }

  /** Neither requests nor counters differ; a new account has none. */
  ghost predicate SameRequests(s: State, r: State) {
    && r.withdrawals == s.withdrawals
    && forall a {:trigger r.holders[a]} :: a in r.holders ==>
         r.holders[a].requests == if a in s.holders then s.holders[a].requests else 0
  }

  lemma SameCounted(s: State, r: State)
    requires InOrder(s) && SameRequests(s, r)
    ensures CountsKept(s, r)
  {
    if Counted(s) {
      forall a | a in r.holders ensures r.holders[a].requests == |Asked(r.withdrawals, a)| <= REQUEST_LIMIT {
        if a in s.holders {
          assert s.holders[a].requests == |Asked(s.withdrawals, a)| <= REQUEST_LIMIT;
        } else {
          NobodyAsked(s, a);
        }
      }
    }
  }

  lemma NobodyAsked(s: State, a: Name)
    requires InOrder(s) && a !in s.holders
    ensures Asked(s.withdrawals, a) == {}
  {
    forall k | k in s.withdrawals ensures k.0 != a {
      assert PendingOk(k, s.withdrawals[k], s.holders.Keys);
    }
  }

  // ----- asking, cancelling, paying -----

  lemma OneMoreAsked(withdrawals: Pendings, k: Key, p: Pending, a: Name)
    requires k !in withdrawals
    ensures |Asked(withdrawals[k := p], a)| == |Asked(withdrawals, a)| + if a == k.0 then 1 else 0
  {
    if a == k.0 {
      assert Asked(withdrawals[k := p], a) == Asked(withdrawals, a) + {k};
    } else {
      assert Asked(withdrawals[k := p], a) == Asked(withdrawals, a);
    }
  }

  lemma OneLessAsked(withdrawals: Pendings, k: Key, a: Name)
    requires k in withdrawals
    ensures |Asked(withdrawals - {k}, a)| == |Asked(withdrawals, a)| - if a == k.0 then 1 else 0
  {
    if a == k.0 {
      assert Asked(withdrawals, a) == Asked(withdrawals - {k}, a) + {k};
    } else {
      assert Asked(withdrawals, a) == Asked(withdrawals - {k}, a);
    }
  }

  /** `change` more requests of `a`, and its counter moved with them. */
  ghost predicate CounterMoved(s: State, r: State, a: Name, change: int) {
    && r.holders.Keys == s.holders.Keys
    && forall b {:trigger r.holders[b]} :: b in s.holders ==>
         && (r.holders[b].requests == s.holders[b].requests + if b == a then change else 0)
         && (|Asked(r.withdrawals, b)| == |Asked(s.withdrawals, b)| + if b == a then change else 0)
  }

  lemma CounterMovedOk(s: State, r: State, a: Name, change: int)
    requires CounterMoved(s, r, a, change) && a in s.holders
    requires (change > 0 ==> s.holders[a].requests + change <= REQUEST_LIMIT)
    ensures CountsKept(s, r)
  {
    if Counted(s) {
      forall b | b in r.holders ensures r.holders[b].requests == |Asked(r.withdrawals, b)| <= REQUEST_LIMIT {
        assert s.holders[b].requests == |Asked(s.withdrawals, b)| <= REQUEST_LIMIT;
      }
    }
  }

  lemma RequestCounted(s: State, from: Name, id: nat, p: Pending)
    requires InOrder(s) && from in s.holders && p.to in s.holders && (from, id) !in s.withdrawals
    requires 0 < p.amount <= Saved(s.holders[from], p.inSteem) && s.holders[from].requests < REQUEST_LIMIT
    ensures CountsKept(s, SavingsRequested(s, from, id, p))
  {
    hide GapsMoved, InOrder, Asked, CountsKept, SavingsInterest;
    var r := SavingsRequested(s, from, id, p);
    assert r.withdrawals == s.withdrawals[(from, id) := p];
    forall b | b in s.holders
      ensures r.holders[b].requests == s.holders[b].requests + if b == from then 1 else 0
      ensures |Asked(r.withdrawals, b)| == |Asked(s.withdrawals, b)| + if b == from then 1 else 0
    {
      OneMoreAsked(s.withdrawals, (from, id), p, b);
    }
    CounterMovedOk(s, r, from, 1);
  }

  lemma CancelCounted(s: State, k: Key)
    requires InOrder(s) && k in s.withdrawals && k.0 in s.holders
    ensures CountsKept(s, Recounted(ReturnedToSavings(s, k), k.0, -1))
  {
    assert PendingOk(k, s.withdrawals[k], s.holders.Keys);
    hide GapsMoved, InOrder, Asked, CountsKept, SavingsInterest;
    var r := Recounted(ReturnedToSavings(s, k), k.0, -1);
    assert r.withdrawals == s.withdrawals - {k};
    forall b | b in s.holders
      ensures r.holders[b].requests == s.holders[b].requests + if b == k.0 then -1 else 0
      ensures |Asked(r.withdrawals, b)| == |Asked(s.withdrawals, b)| + if b == k.0 then -1 else 0
    {
      OneLessAsked(s.withdrawals, k, b);
    }
    CounterMovedOk(s, r, k.0, -1);
  }

  lemma AdjustedRequests(s: State, a: Name, delta: int, inSteem: bool)
    requires InOrder(s) && a in s.holders && (delta >= 0 || Balance(s.holders[a], inSteem) + delta >= 0)
    ensures SameRequests(s, Adjusted(s, a, delta, inSteem))
  {
    hide GapsMoved, InOrder, SbdInterest, Settled;
  }

  lemma RecountedRequests(s: State, a: Name, change: int)
    requires InOrder(s) && a in s.holders
    ensures var r := Recounted(s, a, change);
            && r.withdrawals == s.withdrawals && r.holders.Keys == s.holders.Keys
            && forall b {:trigger r.holders[b]} :: b in s.holders ==>
                 (r.holders[b].requests == s.holders[b].requests + if b == a then change else 0)
  {
    hide GapsMoved, InOrder;
  }

  lemma PaidCounted(s: State, k: Key)
    requires InOrder(s) && k in s.withdrawals
    ensures CountsKept(s, WithdrawalPaid(s, k))
  {
    var p := s.withdrawals[k];
    assert PendingOk(k, p, s.holders.Keys);
    hide GapsMoved, InOrder, Asked, CountsKept, Adjusted, Recounted;
    AdjustedRequests(s, p.to, p.amount, p.inSteem);
    var paid := Adjusted(s, p.to, p.amount, p.inSteem);
    RecountedRequests(paid, k.0, -1);
    var r := WithdrawalPaid(s, k);
    forall b | b in s.holders
      ensures r.holders[b].requests == s.holders[b].requests + if b == k.0 then -1 else 0
      ensures |Asked(r.withdrawals, b)| == |Asked(s.withdrawals, b)| + if b == k.0 then -1 else 0
    {
      assert paid.holders[b].requests == s.holders[b].requests;
      OneLessAsked(s.withdrawals, k, b);
    }
    CounterMovedOk(s, r, k.0, -1);
  }

  lemma GenesisCounted(names: set<Name>, miner: Name, supply: nat, env: Env, feed: Feed)
    ensures Counted(Genesis(names, miner, supply, env, feed))
  {
    forall a ensures Asked(map[], a) == {} {
    }
  }
}
