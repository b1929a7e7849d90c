/** What one operation reserves, another gives back: cancelling at the same time restores the state, except that the
    interest due on the dollars touched has been paid. */
module Undoing {
  import opened Common
  import opened Market
  import opened LedgerState
  import opened LedgerSteps
  import opened LedgerPayments
  import opened QuietSteps

  lemma AdjustTwice(h: Holder, a: int, b: int, inSteem: bool, env: Env)
    ensures Adjust(Adjust(h, a, inSteem, env), b, inSteem, env) == Adjust(h, a + b, inSteem, env)
    ensures AdjustSaved(AdjustSaved(h, a, inSteem, env), b, inSteem, env) == AdjustSaved(h, a + b, inSteem, env)
  {
  }

  lemma SavedOnce(h: Holder, delta: int, inSteem: bool, env: Env)
    ensures SavingsInterest(AdjustSaved(h, delta, inSteem, env), env) == if inSteem then SavingsInterest(h, env) else 0
  {
  }

  /** One account replaced and interest added to the supply. */
  function Changed(s: State, a: Name, h: Holder, interest: int): State {
    s.(holders := s.holders[a := h], sbdSupply := s.sbdSupply + interest)
  }

  lemma AdjustedChanges(s: State, a: Name, delta: int, inSteem: bool)
    requires InOrder(s) && a in s.holders && (delta >= 0 || Balance(s.holders[a], inSteem) + delta >= 0)
    ensures Adjusted(s, a, delta, inSteem)
         == Changed(s, a, Adjust(s.holders[a], delta, inSteem, s.env),
                    if inSteem then 0 else SbdInterest(s.holders[a], s.env))
  {
    hide InOrder, GapsMoved, SbdInterest, Settled, Adjust;
  }

  lemma SavingsChange(s: State, a: Name, delta: int, inSteem: bool)
    requires InOrder(s) && a in s.holders && (delta >= 0 || Saved(s.holders[a], inSteem) + delta >= 0)
    ensures AdjustedSavings(s, a, delta, inSteem)
         == Changed(s, a, AdjustSaved(s.holders[a], delta, inSteem, s.env),
                    if inSteem then 0 else SavingsInterest(s.holders[a], s.env))
  {
    hide InOrder, GapsMoved, SavingsInterest, Settled, AdjustSaved;
  }

  lemma RecountedChanges(s: State, a: Name, change: int)
    requires InOrder(s) && a in s.holders
    ensures Recounted(s, a, change) == Changed(s, a, Recount(s.holders[a], change), 0)
  {
    hide InOrder, GapsMoved;
  }

  function Recount(h: Holder, change: int): Holder {
    h.(requests := h.requests + change)
  }

  // ----- orders -----

  lemma OpenedIs(s: State, o: Order)
    requires InOrder(s) && Sound(o) && o.seller in s.holders && o.forSale <= Balance(s.holders[o.seller], o.sellsSteem)
    ensures var h := s.holders[o.seller];
            OrderOpened(s, o) == Changed(s, o.seller, Adjust(h, -o.forSale, o.sellsSteem, s.env),
                                         if o.sellsSteem then 0 else SbdInterest(h, s.env))
                                   .(nextOrder := s.nextOrder + 1, orders := s.orders[s.nextOrder := o])
  {
    hide InOrder, GapsMoved, SbdInterest, Adjust, Adjusted, Sound;
    AdjustedChanges(s, o.seller, -o.forSale, o.sellsSteem);
  }

  /** A cancelled order gives what is left for sale back to its seller, and to nobody else. */
  lemma CancelledIs(s: State, i: nat)
    requires InOrder(s) && i in s.orders
    ensures var o := s.orders[i];
            && o.seller in s.holders
            && OrderCancelled(s, i) == Changed(s, o.seller, Adjust(s.holders[o.seller], o.forSale, o.sellsSteem, s.env),
                                               if o.sellsSteem then 0 else SbdInterest(s.holders[o.seller], s.env))
                                         .(orders := s.orders - {i})
  {
    var o := s.orders[i];
    assert Sound(s.orders[i]);
    hide InOrder, GapsMoved, SbdInterest, Adjust, Adjusted, Sound;
    AdjustedChanges(s, o.seller, o.forSale, o.sellsSteem);
  }

  /** An order cancelled unfilled: only its number is used up. */
  lemma CancelUndoesOrder(s: State, o: Order)
    requires InOrder(s) && Sound(o) && o.seller in s.holders && o.forSale <= Balance(s.holders[o.seller], o.sellsSteem)
    ensures s.nextOrder in OrderOpened(s, o).orders && InOrder(OrderOpened(s, o))
    ensures OrderCancelled(OrderOpened(s, o), s.nextOrder)
         == Adjusted(s, o.seller, 0, o.sellsSteem).(nextOrder := s.nextOrder + 1)
  {
    hide InOrder, GapsMoved, SbdInterest, Adjust, Adjusted, Sound, OrderOpened, OrderCancelled;
    OrderOpenedConserves(s, o);
    var h := s.holders[o.seller];
    OpenedIs(s, o);
    CancelledIs(OrderOpened(s, o), s.nextOrder);
    AdjustedChanges(s, o.seller, 0, o.sellsSteem);
    AdjustTwice(h, -o.forSale, o.forSale, o.sellsSteem, s.env);
    PaidOnce(h, -o.forSale, o.sellsSteem, s.env);
    assert s.orders[s.nextOrder := o] - {s.nextOrder} == s.orders;
  }

  // ----- savings -----

  lemma RecountedAdjust(h: Holder, change: int, delta: int, inSteem: bool, env: Env)
    ensures AdjustSaved(Recount(h, change), delta, inSteem, env) == Recount(AdjustSaved(h, delta, inSteem, env), change)
    ensures SavingsInterest(Recount(h, change), env) == SavingsInterest(h, env)
  {
  }

  lemma RequestIs(s: State, from: Name, id: nat, p: Pending)
    requires InOrder(s) && from in s.holders && p.to in s.holders && (from, id) !in s.withdrawals
    requires 0 < p.amount <= Saved(s.holders[from], p.inSteem)
    ensures var h := s.holders[from];
            SavingsRequested(s, from, id, p)
              == Changed(s, from, Recount(AdjustSaved(h, -p.amount, p.inSteem, s.env), 1),
                         if p.inSteem then 0 else SavingsInterest(h, s.env))
                   .(withdrawals := s.withdrawals[(from, id) := p])
  {
    hide InOrder, GapsMoved, SavingsInterest, AdjustSaved, AdjustedSavings, Recounted;
    SavingsChange(s, from, -p.amount, p.inSteem);
    RecountedChanges(SavingsReserved(s, from, id, p), from, 1);
  }

  lemma OwnerKnown(s: State, k: Key)
    requires InOrder(s) && k in s.withdrawals
    ensures PendingOk(k, s.withdrawals[k], s.holders.Keys)
  {
  }

  /** A cancelled request goes back to the savings it came from, and to nobody else. */
  lemma ReturnedIs(s: State, k: Key)
    requires InOrder(s) && k in s.withdrawals
    ensures var p := s.withdrawals[k];
            && k.0 in s.holders
            && Recounted(ReturnedToSavings(s, k), k.0, -1)
               == Changed(s, k.0, Recount(AdjustSaved(s.holders[k.0], p.amount, p.inSteem, s.env), -1),
                          if p.inSteem then 0 else SavingsInterest(s.holders[k.0], s.env))
                    .(withdrawals := s.withdrawals - {k})
  {
    hide InOrder, GapsMoved, SavingsInterest, AdjustSaved, AdjustedSavings, Recounted;
    var p := s.withdrawals[k];
    OwnerKnown(s, k);
    SavingsChange(s, k.0, p.amount, p.inSteem);
    RecountedChanges(ReturnedToSavings(s, k), k.0, -1);
  }

  /** A savings withdrawal cancelled: the counter and the savings are what they were. */
  lemma CancelUndoesRequest(s: State, from: Name, id: nat, p: Pending)
    requires InOrder(s) && from in s.holders && p.to in s.holders && (from, id) !in s.withdrawals
    requires 0 < p.amount <= Saved(s.holders[from], p.inSteem)
    ensures var r := SavingsRequested(s, from, id, p);
            && (from, id) in r.withdrawals
            && Recounted(ReturnedToSavings(r, (from, id)), from, -1) == AdjustedSavings(s, from, 0, p.inSteem)
  {
    hide InOrder, GapsMoved, SavingsInterest, AdjustSaved, AdjustedSavings, Recounted, SavingsRequested,
        ReturnedToSavings;
    var h, k := s.holders[from], (from, id);
    RequestIs(s, from, id, p);
    ReturnedIs(SavingsRequested(s, from, id, p), k);
    RecountedAdjust(AdjustSaved(h, -p.amount, p.inSteem, s.env), 1, p.amount, p.inSteem, s.env);
    AdjustTwice(h, -p.amount, p.amount, p.inSteem, s.env);
    SavedOnce(h, -p.amount, p.inSteem, s.env);
    SavingsChange(s, from, 0, p.inSteem);
    assert s.withdrawals[k := p] - {k} == s.withdrawals;
  }

  // ----- escrows -----

  /** Taken from an account for an escrow. */
  function Reserved(h: Holder, e: Escrow, env: Env): Holder {
    Adjust(Adjust(h, -SteemIn(e), true, env), -SbdIn(e), false, env)
  }

  /** Given back to it. */
  function Refunded(h: Holder, e: Escrow, env: Env): Holder {
    Adjust(Adjust(Adjust(h, e.steem, true, env), e.sbd, false, env), e.fee, e.feeInSteem, env)
  }

  lemma RefundedReserve(h: Holder, e: Escrow, env: Env)
    ensures Refunded(Reserved(h, e, env), e, env) == Adjust(h, 0, false, env)
    ensures SbdInterest(Reserved(h, e, env), env) == 0
  {
    hide SbdInterest, Settled;
    PaidOnce(h, -SteemIn(e), true, env);
    var t := Adjust(h, -SteemIn(e), true, env);
    PaidOnce(t, -SbdIn(e), false, env);
    var u := Adjust(t, -SbdIn(e), false, env);
    PaidOnce(u, e.steem, true, env);
    var v := Adjust(u, e.steem, true, env);
    PaidOnce(v, e.sbd, false, env);
    var w := Adjust(v, e.sbd, false, env);
    SettledTwice(h.sbd, v.sbd, h.sbdClock, env);
    SettledTwice(h.sbd, w.sbd, h.sbdClock, env);
  }

  lemma SettledTwice(balance: int, now: int, c: Clock, env: Env)
    ensures Settled(now, Settled(balance, c, env.now, env.feesOn), env.now, env.feesOn)
         == Settled(balance, c, env.now, env.feesOn)
  {
  }

  lemma OpenedEscrowIs(s: State, k: Key, e: Escrow)
    requires InOrder(s) && EscrowOk(e) && k.0 in s.holders && e.to in s.holders && e.agent in s.holders
    requires k !in s.escrows && SteemIn(e) <= s.holders[k.0].steem && SbdIn(e) <= s.holders[k.0].sbd
    ensures EscrowOpened(s, k, e)
         == Changed(s, k.0, Reserved(s.holders[k.0], e, s.env), SbdInterest(s.holders[k.0], s.env))
              .(escrows := s.escrows[k := e])
  {
    hide InOrder, GapsMoved, SbdInterest, Adjust, Spent;
    SpentIs(s, k.0, SteemIn(e), SbdIn(e));
  }

  lemma SpentIs(s: State, a: Name, steem: int, sbd: int)
    requires InOrder(s) && a in s.holders && 0 <= steem <= s.holders[a].steem && 0 <= sbd <= s.holders[a].sbd
    ensures Spent(s, a, steem, sbd)
         == Changed(s, a, Adjust(Adjust(s.holders[a], -steem, true, s.env), -sbd, false, s.env),
                    SbdInterest(s.holders[a], s.env))
  {
    hide InOrder, GapsMoved, SbdInterest, Adjust, Adjusted;
    StillDollars(s, a, -steem);
    AdjustedChanges(s, a, -steem, true);
    PaidOnce(s.holders[a], -steem, true, s.env);
    AdjustedChanges(Adjusted(s, a, -steem, true), a, -sbd, false);
  }

  /** A refused or expired escrow goes back to its sender with the fee, and to nobody else. */
  lemma RefundedIs(s: State, k: Key)
    requires InOrder(s) && k in s.escrows
    ensures k.0 in s.holders
    ensures EscrowRefunded(s, k)
         == Changed(s, k.0, Refunded(s.holders[k.0], s.escrows[k], s.env), SbdInterest(s.holders[k.0], s.env))
              .(escrows := s.escrows - {k})
  {
    hide InOrder, GapsMoved, SbdInterest, Settled, Adjusted, Adjust;
    EscrowNamed(s, k);
    var e := s.escrows[k];
    var h := s.holders[k.0];
    AdjustedChanges(s, k.0, e.steem, true);
    var t := Adjusted(s, k.0, e.steem, true);
    PaidOnce(h, e.steem, true, s.env);
    AdjustedChanges(t, k.0, e.sbd, false);
    var u := Adjusted(t, k.0, e.sbd, false);
    PaidOnce(t.holders[k.0], e.sbd, false, s.env);
    AdjustedChanges(u, k.0, e.fee, e.feeInSteem);
  }

  lemma EscrowNamed(s: State, k: Key)
    requires InOrder(s) && k in s.escrows
    ensures EscrowOk(s.escrows[k]) && k.0 in s.holders && s.escrows[k].to in s.holders
    ensures s.escrows[k].agent in s.holders
  {
    assert EscrowOk(s.escrows[k]);
  }

  /** An escrow refused before it is ratified: the sender has everything back. */
  lemma RefusalUndoesEscrow(s: State, k: Key, e: Escrow)
    requires InOrder(s) && EscrowOk(e) && k.0 in s.holders && e.to in s.holders && e.agent in s.holders
    requires k !in s.escrows && SteemIn(e) <= s.holders[k.0].steem && SbdIn(e) <= s.holders[k.0].sbd
    ensures var r := EscrowOpened(s, k, e);
            InOrder(r) && k in r.escrows && EscrowRefunded(r, k) == Adjusted(s, k.0, 0, false)
  {
    hide InOrder, GapsMoved, SbdInterest, Adjust, Adjusted, EscrowOpened, EscrowRefunded, Reserved, Refunded;
    EscrowOpenedConserves(s, k, e);
    OpenedEscrowIs(s, k, e);
    RefundedIs(EscrowOpened(s, k, e), k);
    RefundedReserve(s.holders[k.0], e, s.env);
    AdjustedChanges(s, k.0, 0, false);
    assert s.escrows[k := e] - {k} == s.escrows;
  }

  /** An approval counts for whoever gives it, receiver or agent; the fee goes to the agent when both have approved. */
  lemma RatifiedIs(s: State, k: Key, who: Name)
    requires InOrder(s) && k in s.escrows
    ensures var e := s.escrows[k];
            var done := (e.toApproved || who == e.to) && (e.agentApproved || who == e.agent);
            && e.agent in s.holders
            && EscrowRatified(s, k, who)
               == (if !done then s
                   else Changed(s, e.agent, Adjust(s.holders[e.agent], e.fee, e.feeInSteem, s.env),
                                if e.feeInSteem then 0 else SbdInterest(s.holders[e.agent], s.env)))
                    .(escrows := s.escrows[k := e.(toApproved := e.toApproved || who == e.to,
                                                   agentApproved := e.agentApproved || who == e.agent,
                                                   fee := if done then 0 else e.fee)])
  {
    hide InOrder, GapsMoved, SbdInterest, Adjust, Adjusted;
    EscrowNamed(s, k);
    var e := s.escrows[k];
    AdjustedChanges(s, e.agent, e.fee, e.feeInSteem);
  }

  /** Receiver and agent may approve in either order. */
  lemma EitherApprovesFirst(s: State, k: Key)
    requires InOrder(s) && k in s.escrows && !s.escrows[k].toApproved && !s.escrows[k].agentApproved
    requires s.escrows[k].to != s.escrows[k].agent
    ensures var to, agent := s.escrows[k].to, s.escrows[k].agent;
            && k in EscrowRatified(s, k, to).escrows && k in EscrowRatified(s, k, agent).escrows
            && EscrowRatified(EscrowRatified(s, k, to), k, agent) == EscrowRatified(EscrowRatified(s, k, agent), k, to)
  {
    hide InOrder, GapsMoved, SbdInterest, Adjust, EscrowRatified;
    var to, agent := s.escrows[k].to, s.escrows[k].agent;
    RatifiedIs(s, k, to);
    RatifiedIs(s, k, agent);
    RatifiedIs(EscrowRatified(s, k, to), k, agent);
    RatifiedIs(EscrowRatified(s, k, agent), k, to);
  }

  /** The permission scheme: before the expiration either party releases to the other, afterwards to either; once there
      is a dispute, the agent alone decides. */
  predicate Permitted(from: Name, e: Escrow, now: int, who: Name, receiver: Name) {
    && receiver in {from, e.to}
    && if e.disputed then who == e.agent
       else if now < e.expiration then {who, receiver} == {from, e.to}
       else who in {from, e.to}
  }

  lemma WhoMayRelease(s: State, k: Key, who: Name, receiver: Name, steem: nat, sbd: nat)
    requires InOrder(s) && k in s.escrows && s.escrows[k].toApproved && s.escrows[k].agentApproved
    requires steem <= s.escrows[k].steem && sbd <= s.escrows[k].sbd && s.escrows[k].agent !in {k.0, s.escrows[k].to}
    ensures var e := s.escrows[k];
            ReleaseAllowed(s, k, e.to, e.agent, who, receiver, steem, sbd) <==>
                Permitted(k.0, e, s.env.now, who, receiver)
  {
    EscrowNamed(s, k);
    hide InOrder;
    var e := s.escrows[k];
    if who in {k.0, e.to} && receiver in {k.0, e.to} {
      assert {who, receiver} == {k.0, e.to} <==> (if who == k.0 then receiver == e.to else receiver == k.0);
    }
  }

  /** A dispute takes the decision away from both parties for good. */
  lemma DisputeLeavesItToAgent(s: State, k: Key, to: Name, agent: Name, who: Name, receiver: Name, steem: nat, sbd: nat)
    requires InOrder(s) && k in s.escrows
    requires ReleaseAllowed(EscrowDisputed(s, k), k, to, agent, who, receiver, steem, sbd)
    ensures who == s.escrows[k].agent
  {
    hide InOrder, GapsMoved;
  }
}
