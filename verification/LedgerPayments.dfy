/** Who is paid by the steps of the ledger. Conservation says that nothing is lost; these say where it goes. */
module LedgerPayments {
  import opened Common
  import opened MapSums
  import opened Market
  import opened LedgerState
  import opened LedgerSteps
  import opened VestingRoutes

  /** What an account owns, without its clocks and counters, and the interest on its dollars that is due but not yet
      paid. */
  datatype Purse = Purse(steem: int, sbd: int, due: int, savings: int, savingsSbd: int, vests: int)

  function PurseOf(h: Holder, env: Env): Purse {
    Purse(h.steem, h.sbd, SbdInterest(h, env), h.savings, h.savingsSbd, h.vests)
  }

  /** The dollars an account has once the interest due is paid. */
  function Dollar(h: Holder, env: Env): int {
    h.sbd + SbdInterest(h, env)
  }

  /** Only the liquid balances of `a` differ: by these amounts, and by interest that was due and is new supply. */
  ghost predicate OnlyPaid(s: State, r: State, a: Name, steem: int, sbd: int) {
    var paid := r.sbdSupply - s.sbdSupply;
    && a in s.holders && r.holders.Keys == s.holders.Keys && paid >= 0 && r.env == s.env
    && (forall b {:trigger r.holders[b]} :: b in s.holders && b != a ==>
          PurseOf(r.holders[b], s.env) == PurseOf(s.holders[b], s.env))
    && var p := PurseOf(s.holders[a], s.env);
       PurseOf(r.holders[a], s.env) == p.(steem := p.steem + steem, sbd := p.sbd + sbd + paid, due := p.due - paid)
  }

  lemma PaidTwice(s: State, t: State, r: State, a: Name, steem: int, sbd: int, steem': int, sbd': int)
    requires OnlyPaid(s, t, a, steem, sbd) && OnlyPaid(t, r, a, steem', sbd')
    ensures OnlyPaid(s, r, a, steem + steem', sbd + sbd')
  {
    hide SbdInterest;
    forall b | b in s.holders && b != a ensures PurseOf(r.holders[b], s.env) == PurseOf(s.holders[b], s.env) {
      assert PurseOf(t.holders[b], s.env) == PurseOf(s.holders[b], s.env);
    }
  }

  /** A change of records only. */
  lemma SamePurses(s: State, t: State, r: State, a: Name, steem: int, sbd: int)
    requires OnlyPaid(s, t, a, steem, sbd) && r.sbdSupply == t.sbdSupply && r.holders.Keys == t.holders.Keys
    requires r.env == t.env
    requires forall b {:trigger r.holders[b]} :: b in t.holders ==>
               PurseOf(r.holders[b], t.env) == PurseOf(t.holders[b], t.env)
    ensures OnlyPaid(s, r, a, steem, sbd)
  {
    hide SbdInterest;
    forall b | b in s.holders && b != a ensures PurseOf(r.holders[b], s.env) == PurseOf(s.holders[b], s.env) {
      assert PurseOf(t.holders[b], s.env) == PurseOf(s.holders[b], s.env);
    }
  }

  lemma AdjustedPays(s: State, a: Name, delta: int, inSteem: bool)
    requires InOrder(s) && a in s.holders && (delta >= 0 || Balance(s.holders[a], inSteem) + delta >= 0)
    ensures OnlyPaid(s, Adjusted(s, a, delta, inSteem), a, if inSteem then delta else 0, if inSteem then 0 else delta)
  {
    hide InOrder, GapsMoved;
    InterestIsFine(s, a);
    PaidOnce(s.holders[a], delta, inSteem, s.env);
  }

  /** Interest is paid at most once at the same time. */
  lemma PaidOnce(h: Holder, delta: int, inSteem: bool, env: Env)
    ensures SbdInterest(Adjust(h, delta, inSteem, env), env) == if inSteem then SbdInterest(h, env) else 0
  {
  }

  lemma InterestIsFine(s: State, a: Name)
    requires InOrder(s) && a in s.holders
    ensures SbdInterest(s.holders[a], s.env) >= 0
  {
    assert HolderOk(s.holders[a], s.env.now);
    InterestNonNegative(s.holders[a], s.env);
  }

  /** process_savings_withdraws pays the target of the request. */
  lemma WithdrawalPays(s: State, k: Key)
    requires InOrder(s) && k in s.withdrawals
    ensures var p := s.withdrawals[k];
            OnlyPaid(s, WithdrawalPaid(s, k), p.to, if p.inSteem then p.amount else 0,
                     if p.inSteem then 0 else p.amount)
  {
    var p := s.withdrawals[k];
    assert PendingOk(k, p, s.holders.Keys);
    hide InOrder, GapsMoved, Adjusted, OnlyPaid;
    var s1 := Adjusted(s, p.to, p.amount, p.inSteem);
    AdjustedPays(s, p.to, p.amount, p.inSteem);
    RecountedPurses(s1, k.0, -1);
    SamePurses(s, s1, WithdrawalPaid(s, k), p.to, if p.inSteem then p.amount else 0, if p.inSteem then 0 else p.amount);
  }

  lemma RecountedPurses(s: State, a: Name, change: int)
    requires InOrder(s) && a in s.holders
    ensures var r := Recounted(s, a, change);
            && r.sbdSupply == s.sbdSupply && r.holders.Keys == s.holders.Keys && r.env == s.env
            && forall b {:trigger r.holders[b]} :: b in s.holders ==>
                 PurseOf(r.holders[b], s.env) == PurseOf(s.holders[b], s.env)
  {
    hide InOrder, GapsMoved;
  }

  /** process_conversions pays the owner the worth of the request. */
  lemma ConversionPays(s: State, k: Key)
    requires InOrder(s) && k in s.conversions && s.feed.Feed?
    ensures var p := s.conversions[k];
            OnlyPaid(s, ConversionPaid(s, k), p.to, Convert(p.amount, s.feed.steem, s.feed.sbd), 0)
  {
    var p := s.conversions[k];
    assert PendingOk(k, p, s.holders.Keys);
    ConvertNonNegative(p.amount, s.feed.steem, s.feed.sbd);
    hide InOrder, GapsMoved, Adjusted, OnlyPaid;
    AdjustedPays(s, p.to, Convert(p.amount, s.feed.steem, s.feed.sbd), true);
    SamePurses(s, Adjusted(s, p.to, Convert(p.amount, s.feed.steem, s.feed.sbd), true), ConversionPaid(s, k),
               p.to, Convert(p.amount, s.feed.steem, s.feed.sbd), 0);
  }

  /** A rejected or expired escrow goes back to its sender, the fee included. */
  lemma RefundPays(s: State, k: Key)
    requires InOrder(s) && k in s.escrows
    ensures OnlyPaid(s, EscrowRefunded(s, k), k.0, SteemIn(s.escrows[k]), SbdIn(s.escrows[k]))
  {
    var e := s.escrows[k];
    assert EscrowOk(s.escrows[k]);
    hide InOrder, GapsMoved, Adjusted, OnlyPaid, ContentsPaid;
    ContentsPays(s, k.0, e);
    SamePurses(s, ContentsPaid(s, k.0, e), EscrowRefunded(s, k), k.0, SteemIn(e), SbdIn(e));
  }

  lemma BothPays(s: State, a: Name, steem: int, sbd: int)
    requires InOrder(s) && a in s.holders && 0 <= steem && 0 <= sbd
    ensures OnlyPaid(s, PaidBoth(s, a, steem, sbd), a, steem, sbd)
  {
    hide InOrder, GapsMoved, Adjusted, OnlyPaid;
    var s1 := Adjusted(s, a, steem, true);
    AdjustedPays(s, a, steem, true);
    AdjustedPays(s1, a, sbd, false);
    PaidTwice(s, s1, PaidBoth(s, a, steem, sbd), a, steem, 0, 0, sbd);
  }

  lemma ContentsPays(s: State, a: Name, e: Escrow)
    requires InOrder(s) && a in s.holders && e.steem >= 0 && e.sbd >= 0 && e.fee >= 0
    ensures OnlyPaid(s, ContentsPaid(s, a, e), a, SteemIn(e), SbdIn(e))
  {
    hide InOrder, GapsMoved, Adjusted, OnlyPaid, PaidBoth;
    var s1 := PaidBoth(s, a, e.steem, e.sbd);
    BothPays(s, a, e.steem, e.sbd);
    AdjustedPays(s1, a, e.fee, e.feeInSteem);
    PaidTwice(s, s1, ContentsPaid(s, a, e), a, e.steem, e.sbd, if e.feeInSteem then e.fee else 0,
              if e.feeInSteem then 0 else e.fee);
  }

  /** A release pays the receiver exactly what was asked for. */
  lemma ReleasePays(s: State, k: Key, receiver: Name, steem: nat, sbd: nat)
    requires InOrder(s) && k in s.escrows && receiver in s.holders
    requires s.escrows[k].toApproved && s.escrows[k].agentApproved && steem <= s.escrows[k].steem
    requires sbd <= s.escrows[k].sbd
    ensures OnlyPaid(s, EscrowReleased(s, k, receiver, steem, sbd), receiver, steem, sbd)
  {
    assert EscrowOk(s.escrows[k]);
    hide InOrder, GapsMoved, OnlyPaid, PaidBoth;
    BothPays(s, receiver, steem, sbd);
    SamePurses(s, PaidBoth(s, receiver, steem, sbd), EscrowReleased(s, k, receiver, steem, sbd), receiver, steem, sbd);
  }

  /** The second approval pays the fee to the agent. */
  lemma FeePays(s: State, k: Key, e: Escrow)
    requires InOrder(s) && k in s.escrows
    requires SteemIn(e) == SteemIn(s.escrows[k]) && SbdIn(e) == SbdIn(s.escrows[k]) && e.steem >= 0 && e.sbd >= 0
    requires e.fee >= 0
    requires k.0 in s.holders && e.to in s.holders && e.agent in s.holders
    ensures OnlyPaid(s, FeePaid(s, k, e), e.agent, if e.feeInSteem then e.fee else 0, if e.feeInSteem then 0 else e.fee)
  {
    hide InOrder, GapsMoved, OnlyPaid, Adjusted;
    AdjustedPays(s, e.agent, e.fee, e.feeInSteem);
    SamePurses(s, Adjusted(s, e.agent, e.fee, e.feeInSteem), FeePaid(s, k, e), e.agent,
               if e.feeInSteem then e.fee else 0, if e.feeInSteem then 0 else e.fee);
  }

  /** A cancelled or expired order gives the seller back what is still for sale. */
  lemma CancelPays(s: State, i: nat)
    requires InOrder(s) && i in s.orders
    ensures OnlyPaid(s, OrderCancelled(s, i), s.orders[i].seller, SteemOf(s.orders[i]), SbdOf(s.orders[i]))
  {
    var o := s.orders[i];
    assert Sound(s.orders[i]);
    hide InOrder, GapsMoved, OnlyPaid, Adjusted;
    AdjustedPays(s, o.seller, o.forSale, o.sellsSteem);
    SamePurses(s, Adjusted(s, o.seller, o.forSale, o.sellsSteem), OrderCancelled(s, i), o.seller, SteemOf(o), SbdOf(o));
  }

  /** A filled order pays its seller what it receives, and the dust it closes with. */
  lemma FillPays(s: State, i: nat, pays: int, receives: int)
    requires InOrder(s) && i in s.orders && 0 < pays <= s.orders[i].forSale && receives >= 0
    ensures s.orders[i].base > 0
    ensures var o := s.orders[i];
            OnlyPaid(s, OrderFilled(s, i, pays, receives), o.seller,
                     if o.sellsSteem then Dust(o, pays) else receives, if o.sellsSteem then receives else Dust(o, pays))
  {
    var o := s.orders[i];
    assert Sound(s.orders[i]);
    hide InOrder, OnlyPaid, OrderFilled, ToReceive;
    if pays == o.forSale {
      FillOfAll(s, i, receives);
    } else if ToReceive(Rest(o, pays)) == 0 {
      FillToDust(s, i, pays, receives);
    } else {
      FillInPart(s, i, pays, receives);
    }
  }

  lemma FillOfAll(s: State, i: nat, receives: int)
    requires InOrder(s) && i in s.orders && 0 < s.orders[i].forSale && receives >= 0
    ensures var o := s.orders[i];
            OnlyPaid(s, OrderFilled(s, i, o.forSale, receives), o.seller, if o.sellsSteem then 0 else receives,
                     if o.sellsSteem then receives else 0)
  {
    var o := s.orders[i];
    assert Sound(s.orders[i]);
    hide InOrder, GapsMoved, OnlyPaid, Adjusted, OrderDropped, OrderSet, ToReceive;
    var s1 := Adjusted(s, o.seller, receives, !o.sellsSteem);
    AdjustedPays(s, o.seller, receives, !o.sellsSteem);
    DroppedPurses(s1, i);
    SamePurses(s, s1, OrderDropped(s1, i), o.seller, if o.sellsSteem then 0 else receives,
               if o.sellsSteem then receives else 0);
  }

  lemma FillInPart(s: State, i: nat, pays: int, receives: int)
    requires InOrder(s) && i in s.orders && 0 < pays < s.orders[i].forSale && receives >= 0 && s.orders[i].base > 0
    requires ToReceive(Rest(s.orders[i], pays)) != 0
    ensures var o := s.orders[i];
            OnlyPaid(s, OrderFilled(s, i, pays, receives), o.seller, if o.sellsSteem then 0 else receives,
                     if o.sellsSteem then receives else 0)
  {
    var o := s.orders[i];
    assert Sound(s.orders[i]);
    BelowNext(s, i);
    hide InOrder, GapsMoved, OnlyPaid, Adjusted, OrderDropped, OrderSet, ToReceive;
    RestIsSoundOrDust(o, pays);
    var s1 := Adjusted(s, o.seller, receives, !o.sellsSteem);
    AdjustedPays(s, o.seller, receives, !o.sellsSteem);
    SetPurses(s1, i, Rest(o, pays));
    SamePurses(s, s1, OrderSet(s1, i, Rest(o, pays)), o.seller, if o.sellsSteem then 0 else receives,
               if o.sellsSteem then receives else 0);
  }

  lemma ProceedsAndDust(s: State, a: Name, receives: int, dust: int, inSteem: bool)
    requires InOrder(s) && a in s.holders && receives >= 0 && dust >= 0
    ensures var r := Adjusted(Adjusted(s, a, receives, !inSteem), a, dust, inSteem);
            OnlyPaid(s, r, a, if inSteem then dust else receives, if inSteem then receives else dust)
  {
    hide InOrder, GapsMoved, OnlyPaid, Adjusted;
    var s1 := Adjusted(s, a, receives, !inSteem);
    AdjustedPays(s, a, receives, !inSteem);
    AdjustedPays(s1, a, dust, inSteem);
    PaidTwice(s, s1, Adjusted(s1, a, dust, inSteem), a, if inSteem then 0 else receives,
              if inSteem then receives else 0,
              if inSteem then dust else 0, if inSteem then 0 else dust);
  }

  lemma FillToDust(s: State, i: nat, pays: int, receives: int)
    requires InOrder(s) && i in s.orders && 0 < pays < s.orders[i].forSale && receives >= 0 && s.orders[i].base > 0
    requires ToReceive(Rest(s.orders[i], pays)) == 0
    ensures var o := s.orders[i];
            var dust := o.forSale - pays;
            OnlyPaid(s, OrderFilled(s, i, pays, receives), o.seller, if o.sellsSteem then dust else receives,
                     if o.sellsSteem then receives else dust)
  {
    hide InOrder, GapsMoved, OnlyPaid, Adjusted, OrderFilled, OrderDropped, ToReceive, PurseOf;
    var o := s.orders[i];
    var dust := o.forSale - pays;
    BelowNext(s, i);
    var s2 := Adjusted(Adjusted(s, o.seller, receives, !o.sellsSteem), o.seller, dust, o.sellsSteem);
    ProceedsAndDust(s, o.seller, receives, dust, o.sellsSteem);
    DroppedPurses(s2, i);
    ClosedWithDust(s, i, pays, receives);
    SamePurses(s, s2, OrderDropped(s2, i), o.seller, if o.sellsSteem then dust else receives,
               if o.sellsSteem then receives else dust);
  }

  lemma ClosedWithDust(s: State, i: nat, pays: int, receives: int)
    requires InOrder(s) && i in s.orders && 0 < pays < s.orders[i].forSale && receives >= 0 && s.orders[i].base > 0
    requires ToReceive(Rest(s.orders[i], pays)) == 0 && s.orders[i].seller in s.holders
    ensures var o := s.orders[i];
            var s2 :=
                Adjusted(Adjusted(s, o.seller, receives, !o.sellsSteem), o.seller, o.forSale - pays, o.sellsSteem);
            i in s2.orders && OrderFilled(s, i, pays, receives) == OrderDropped(s2, i)
  {
    hide InOrder, GapsMoved, Adjusted, OrderDropped, OrderSet, ToReceive;
  }

  lemma BelowNext(s: State, i: nat)
    requires InOrder(s) && i in s.orders
    ensures i < s.nextOrder && s.orders[i].seller in s.holders
  {
    assert Sound(s.orders[i]);
  }

  lemma DroppedPurses(s: State, i: nat)
    requires InOrder(s) && i in s.orders
    ensures OrderDropped(s, i).holders == s.holders && OrderDropped(s, i).sbdSupply == s.sbdSupply
  {
  }

  lemma SetPurses(s: State, i: nat, o: Order)
    requires InOrder(s) && Sound(o) && o.seller in s.holders && i < s.nextOrder
    ensures OrderSet(s, i, o).holders == s.holders && OrderSet(s, i, o).sbdSupply == s.sbdSupply
  {
  }

  // ----- loops over due records -----

  /** Whoever is owed something by the records `m` has not been paid yet: liquid tokens and what is still owed add up
      to what they were at the start. For SBD there may be interest on top. */
  ghost predicate Settling<K>(before: Holders, now: Holders, m0: map<K, int>, m: map<K, int>, to0: map<K, Name>,
                              to: map<K, Name>) {
    && before.Keys == now.Keys
    && forall a {:trigger now[a]} :: a in before ==>
         now[a].steem + Sum(Group(m, to, a)) == before[a].steem + Sum(Group(m0, to0, a))
  }

  ghost predicate SettlingSbd<K>(env: Env, before: Holders, now: Holders, m0: map<K, int>, m: map<K, int>,
                                 to0: map<K, Name>, to: map<K, Name>) {
    && before.Keys == now.Keys
    && forall a {:trigger now[a]} :: a in before ==>
         && now[a].sbd + Sum(Group(m, to, a)) >= before[a].sbd + Sum(Group(m0, to0, a))
         && Dollar(now[a], env) + Sum(Group(m, to, a)) == Dollar(before[a], env) + Sum(Group(m0, to0, a))
  }

  /** One record is paid and gone. */
  lemma OneSettled<K>(before: Holders, now: Holders, now': Holders, m0: map<K, int>, m: map<K, int>, to0: map<K, Name>,
                      to: map<K, Name>, k: K)
    requires Settling(before, now, m0, m, to0, to) && k in m && k in to && now'.Keys == now.Keys
    requires forall a {:trigger now'[a]} :: a in now ==>
               (now'[a].steem == now[a].steem + if a == to[k] then m[k] else 0)
    ensures Settling(before, now', m0, m - {k}, to0, to - {k})
  {
    hide Group, Sum;
    forall a | a in before
      ensures now'[a].steem + Sum(Group(m - {k}, to - {k}, a)) == before[a].steem + Sum(Group(m0, to0, a))
    {
      assert now[a] == now[a];
      GroupDrop(m, to, k, a);
    }
  }

  lemma OneSettledSbd<K>(env: Env, before: Holders, now: Holders, now': Holders, m0: map<K, int>, m: map<K, int>,
                         to0: map<K, Name>, to: map<K, Name>, k: K)
    requires SettlingSbd(env, before, now, m0, m, to0, to) && k in m && k in to && now'.Keys == now.Keys
    requires forall a {:trigger now'[a]} :: a in now ==>
               var part := if a == to[k] then m[k] else 0;
               now'[a].sbd >= now[a].sbd + part && Dollar(now'[a], env) == Dollar(now[a], env) + part
    ensures SettlingSbd(env, before, now', m0, m - {k}, to0, to - {k})
  {
    hide Group, Sum, Dollar;
    forall a | a in before
      ensures var left := Sum(Group(m - {k}, to - {k}, a));
              && now'[a].sbd + left >= before[a].sbd + Sum(Group(m0, to0, a))
              && Dollar(now'[a], env) + left == Dollar(before[a], env) + Sum(Group(m0, to0, a))
    {
      assert now[a] == now[a];
      GroupDrop(m, to, k, a);
    }
  }

  lemma PaidAmounts(s: State, r: State, a: Name, steem: int, sbd: int)
    requires OnlyPaid(s, r, a, steem, sbd)
    ensures r.holders.Keys == s.holders.Keys
    ensures forall b {:trigger r.holders[b]} :: b in s.holders ==>
              var part := if b == a then sbd else 0;
              && (r.holders[b].steem == s.holders[b].steem + if b == a then steem else 0)
              && r.holders[b].sbd >= s.holders[b].sbd + part
              && Dollar(r.holders[b], s.env) == Dollar(s.holders[b], s.env) + part
  {
    hide SbdInterest;
    forall b | b in s.holders
      ensures var part := if b == a then sbd else 0;
              && (r.holders[b].steem == s.holders[b].steem + if b == a then steem else 0)
              && r.holders[b].sbd >= s.holders[b].sbd + part
              && Dollar(r.holders[b], s.env) == Dollar(s.holders[b], s.env) + part
    {
      assert PurseOf(r.holders[b], s.env) == PurseOf(r.holders[b], s.env);
    }
  }

  /** When nothing is owed any more, everyone has received what they were owed. */
  lemma AllSettled<K>(env: Env, before: Holders, now: Holders, m0: map<K, int>, m: map<K, int>, to0: map<K, Name>,
                      to: map<K, Name>)
    requires m == map[]
    ensures Settling(before, now, m0, m, to0, to) ==>
              forall a :: a in before ==> now[a].steem == before[a].steem + Sum(Group(m0, to0, a))
    ensures SettlingSbd(env, before, now, m0, m, to0, to) ==>
              forall a :: a in before ==>
                && now[a].sbd >= before[a].sbd + Sum(Group(m0, to0, a))
                && Dollar(now[a], env) == Dollar(before[a], env) + Sum(Group(m0, to0, a))
  {
    hide Dollar;
    forall a ensures Sum(Group(m, to, a)) == 0 {
      assert Group(m, to, a) == map[];
    }
  }

  // ----- what is due -----

  ghost function DueSteem(w: Pendings, now: int): map<Key, int> {
    map k | k in w && w[k].due <= now :: if w[k].inSteem then w[k].amount else 0
  }

  ghost function DueSbd(w: Pendings, now: int): map<Key, int> {
    map k | k in w && w[k].due <= now :: if w[k].inSteem then 0 else w[k].amount
  }

  ghost function DueTo(w: Pendings, now: int): map<Key, Name> {
    map k | k in w && w[k].due <= now :: w[k].to
  }

  ghost function DueWorth(w: Pendings, now: int, steem: int, sbd: int): map<Key, int>
    requires sbd > 0
  {
    map k | k in w && w[k].due <= now :: Convert(w[k].amount, steem, sbd)
  }

  lemma DueWithout(w: Pendings, now: int, k: Key)
    requires k in w && w[k].due <= now
    ensures DueSteem(w - {k}, now) == DueSteem(w, now) - {k} && DueSbd(w - {k}, now) == DueSbd(w, now) - {k}
    ensures DueTo(w - {k}, now) == DueTo(w, now) - {k}
    ensures k in DueSteem(w, now) && k in DueSbd(w, now) && k in DueTo(w, now) && DueTo(w, now)[k] == w[k].to
  {
  }

  lemma WorthWithout(w: Pendings, now: int, k: Key, steem: int, sbd: int)
    requires k in w && w[k].due <= now && sbd > 0
    ensures DueWorth(w - {k}, now, steem, sbd) == DueWorth(w, now, steem, sbd) - {k}
    ensures k in DueWorth(w, now, steem, sbd)
    ensures DueTo(w - {k}, now) == DueTo(w, now) - {k} && k in DueTo(w, now)
  {
  }

  lemma NothingDue(w: Pendings, now: int, steem: int, sbd: int)
    requires !exists k :: k in w && w[k].due <= now
    ensures DueSteem(w, now) == map[] && DueSbd(w, now) == map[] && (sbd > 0 ==> DueWorth(w, now, steem, sbd) == map[])
  {
  }

  ghost function LapsedSteem(es: Escrows, now: int): map<Key, int> {
    map k | k in es && Expired(es[k], now) :: SteemIn(es[k])
  }

  ghost function LapsedSbd(es: Escrows, now: int): map<Key, int> {
    map k | k in es && Expired(es[k], now) :: SbdIn(es[k])
  }

  ghost function LapsedTo(es: Escrows, now: int): map<Key, Name> {
    map k | k in es && Expired(es[k], now) :: k.0
  }

  lemma LapsedWithout(es: Escrows, now: int, k: Key)
    requires k in es && Expired(es[k], now)
    ensures LapsedSteem(es - {k}, now) == LapsedSteem(es, now) - {k}
    ensures LapsedSbd(es - {k}, now) == LapsedSbd(es, now) - {k}
    ensures LapsedTo(es - {k}, now) == LapsedTo(es, now) - {k}
    ensures k in LapsedSteem(es, now) && k in LapsedSbd(es, now) && k in LapsedTo(es, now)
  {
  }

  lemma NoneLapsed(es: Escrows, now: int)
    requires !exists k :: k in es && Expired(es[k], now)
    ensures LapsedSteem(es, now) == map[] && LapsedSbd(es, now) == map[]
  {
  }

  ghost function StaleSteem(book: Book, now: int): map<nat, int> {
    map i | i in book && book[i].expiration < now :: SteemOf(book[i])
  }

  ghost function StaleSbd(book: Book, now: int): map<nat, int> {
    map i | i in book && book[i].expiration < now :: SbdOf(book[i])
  }

  ghost function StaleTo(book: Book, now: int): map<nat, Name> {
    map i | i in book && book[i].expiration < now :: book[i].seller
  }

  lemma StaleWithout(book: Book, now: int, i: nat)
    requires i in book && book[i].expiration < now
    ensures StaleSteem(book - {i}, now) == StaleSteem(book, now) - {i}
    ensures StaleSbd(book - {i}, now) == StaleSbd(book, now) - {i}
    ensures StaleTo(book - {i}, now) == StaleTo(book, now) - {i}
    ensures i in StaleSteem(book, now) && i in StaleSbd(book, now) && i in StaleTo(book, now)
  {
  }

  lemma NoneStale(book: Book, now: int)
    requires !exists i :: i in book && book[i].expiration < now
    ensures StaleSteem(book, now) == map[] && StaleSbd(book, now) == map[]
  {
  }

  /** Everyone has received exactly the tokens and dollars that the records owed them. Interest that was due may have
      been paid on the way, and is due no longer. */
  ghost predicate PaidOff<K>(env: Env, before: Holders, after: Holders, steem: map<K, int>, sbd: map<K, int>,
                             to: map<K, Name>) {
    && before.Keys == after.Keys
    && forall a {:trigger after[a]} :: a in before ==>
         && after[a].steem == before[a].steem + Sum(Group(steem, to, a))
         && after[a].sbd >= before[a].sbd + Sum(Group(sbd, to, a))
         && Dollar(after[a], env) == Dollar(before[a], env) + Sum(Group(sbd, to, a))
  }

  ghost predicate WithdrawalsSettling(s0: State, s: State) {
    var now := s0.env.now;
    && Settling(s0.holders, s.holders, DueSteem(s0.withdrawals, now), DueSteem(s.withdrawals, now),
                DueTo(s0.withdrawals, now), DueTo(s.withdrawals, now))
    && SettlingSbd(s0.env, s0.holders, s.holders, DueSbd(s0.withdrawals, now), DueSbd(s.withdrawals, now),
                   DueTo(s0.withdrawals, now), DueTo(s.withdrawals, now))
  }

  lemma WithdrawalSettles(s0: State, s: State, k: Key)
    requires InOrder(s) && s.env == s0.env && k in s.withdrawals && s.withdrawals[k].due <= s0.env.now
    requires WithdrawalsSettling(s0, s)
    ensures WithdrawalsSettling(s0, WithdrawalPaid(s, k))
  {
    hide InOrder, GapsMoved, OnlyPaid, DueSteem, DueSbd, DueTo, Settling, SettlingSbd;
    var now, p := s0.env.now, s.withdrawals[k];
    WithdrawalPays(s, k);
    PaidAmounts(s, WithdrawalPaid(s, k), p.to, if p.inSteem then p.amount else 0, if p.inSteem then 0 else p.amount);
    DueWithout(s.withdrawals, now, k);
    DueAmounts(s.withdrawals, now, k);
    OneSettled(s0.holders, s.holders, WithdrawalPaid(s, k).holders, DueSteem(s0.withdrawals, now),
               DueSteem(s.withdrawals, now),
               DueTo(s0.withdrawals, now), DueTo(s.withdrawals, now), k);
    OneSettledSbd(s0.env, s0.holders, s.holders, WithdrawalPaid(s, k).holders, DueSbd(s0.withdrawals, now),
                  DueSbd(s.withdrawals, now),
                  DueTo(s0.withdrawals, now), DueTo(s.withdrawals, now), k);
  }

  lemma DueAmounts(w: Pendings, now: int, k: Key)
    requires k in w && w[k].due <= now
    ensures DueSteem(w, now)[k] == (if w[k].inSteem then w[k].amount else 0)
    ensures DueSbd(w, now)[k] == (if w[k].inSteem then 0 else w[k].amount)
  {
  }

  lemma WithdrawalsSettled(s0: State, s: State)
    requires WithdrawalsSettling(s0, s) && !exists k :: k in s.withdrawals && s.withdrawals[k].due <= s0.env.now
    ensures PaidOff(s0.env, s0.holders, s.holders, DueSteem(s0.withdrawals, s0.env.now),
                    DueSbd(s0.withdrawals, s0.env.now), DueTo(s0.withdrawals, s0.env.now))
  {
    hide Sum, Group;
    var now := s0.env.now;
    NothingDue(s.withdrawals, now, 0, 0);
    AllSettled(s0.env, s0.holders, s.holders, DueSteem(s0.withdrawals, now), DueSteem(s.withdrawals, now),
               DueTo(s0.withdrawals, now), DueTo(s.withdrawals, now));
    AllSettled(s0.env, s0.holders, s.holders, DueSbd(s0.withdrawals, now), DueSbd(s.withdrawals, now),
               DueTo(s0.withdrawals, now), DueTo(s.withdrawals, now));
  }

  /** Everyone has received exactly the worth of their due requests. */
  ghost predicate ConvertedOff(s0: State, s: State)
    requires s0.feed.Feed? && s0.feed.sbd > 0
  {
    var worth, to :=
        DueWorth(s0.conversions, s0.env.now, s0.feed.steem, s0.feed.sbd), DueTo(s0.conversions, s0.env.now);
    && s0.holders.Keys == s.holders.Keys
    && forall a {:trigger s.holders[a]} :: a in s0.holders ==>
         s.holders[a].steem == s0.holders[a].steem + Sum(Group(worth, to, a))
  }

  ghost predicate ConversionsSettling(s0: State, s: State)
    requires s0.feed.Feed? && s0.feed.sbd > 0
  {
    var now := s0.env.now;
    Settling(s0.holders, s.holders, DueWorth(s0.conversions, now, s0.feed.steem, s0.feed.sbd),
             DueWorth(s.conversions, now, s0.feed.steem, s0.feed.sbd), DueTo(s0.conversions, now), DueTo(s.conversions,
                                                                                                         now))
  }

  lemma ConversionSettles(s0: State, s: State, k: Key)
    requires s0.feed.Feed? && s0.feed.sbd > 0 && s.feed == s0.feed
    requires InOrder(s) && k in s.conversions && s.conversions[k].due <= s0.env.now && ConversionsSettling(s0, s)
    ensures ConversionsSettling(s0, ConversionPaid(s, k))
  {
    hide InOrder, GapsMoved, OnlyPaid, DueWorth, DueTo, Settling;
    var now, p := s0.env.now, s.conversions[k];
    var worth := Convert(p.amount, s.feed.steem, s.feed.sbd);
    ConversionPays(s, k);
    PaidAmounts(s, ConversionPaid(s, k), p.to, worth, 0);
    WorthWithout(s.conversions, now, k, s.feed.steem, s.feed.sbd);
    WorthOf(s.conversions, now, k, s.feed.steem, s.feed.sbd);
    OneSettled(s0.holders, s.holders, ConversionPaid(s, k).holders,
               DueWorth(s0.conversions, now, s.feed.steem, s.feed.sbd),
               DueWorth(s.conversions, now, s.feed.steem, s.feed.sbd), DueTo(s0.conversions, now), DueTo(s.conversions,
                                                                                                         now), k);
  }

  lemma WorthOf(w: Pendings, now: int, k: Key, steem: int, sbd: int)
    requires k in w && w[k].due <= now && sbd > 0
    ensures DueWorth(w, now, steem, sbd)[k] == Convert(w[k].amount, steem, sbd) && DueTo(w, now)[k] == w[k].to
  {
  }

  lemma ConversionsSettled(s0: State, s: State)
    requires s0.feed.Feed? && s0.feed.sbd > 0
    requires ConversionsSettling(s0, s) && !exists k :: k in s.conversions && s.conversions[k].due <= s0.env.now
    ensures ConvertedOff(s0, s)
  {
    hide Sum, Group;
    var now := s0.env.now;
    NothingDue(s.conversions, now, s0.feed.steem, s0.feed.sbd);
    AllSettled(s0.env, s0.holders, s.holders, DueWorth(s0.conversions, now, s0.feed.steem, s0.feed.sbd),
               DueWorth(s.conversions, now, s0.feed.steem, s0.feed.sbd), DueTo(s0.conversions,
                                                                               now), DueTo(s.conversions, now));
  }

  ghost predicate EscrowsSettling(s0: State, s: State) {
    var now := s0.env.now;
    && Settling(s0.holders, s.holders, LapsedSteem(s0.escrows, now), LapsedSteem(s.escrows, now),
                LapsedTo(s0.escrows, now), LapsedTo(s.escrows, now))
    && SettlingSbd(s0.env, s0.holders, s.holders, LapsedSbd(s0.escrows, now), LapsedSbd(s.escrows, now),
                   LapsedTo(s0.escrows, now), LapsedTo(s.escrows, now))
  }

  lemma EscrowSettles(s0: State, s: State, k: Key)
    requires InOrder(s) && s.env == s0.env && k in s.escrows && Expired(s.escrows[k], s0.env.now)
    requires EscrowsSettling(s0, s)
    ensures EscrowsSettling(s0, EscrowRefunded(s, k))
  {
    hide InOrder, GapsMoved, OnlyPaid, LapsedSteem, LapsedSbd, LapsedTo, Settling, SettlingSbd, Expired;
    var now := s0.env.now;
    RefundPays(s, k);
    PaidAmounts(s, EscrowRefunded(s, k), k.0, SteemIn(s.escrows[k]), SbdIn(s.escrows[k]));
    LapsedWithout(s.escrows, now, k);
    LapsedAmounts(s.escrows, now, k);
    OneSettled(s0.holders, s.holders, EscrowRefunded(s, k).holders, LapsedSteem(s0.escrows, now),
               LapsedSteem(s.escrows, now),
               LapsedTo(s0.escrows, now), LapsedTo(s.escrows, now), k);
    OneSettledSbd(s0.env, s0.holders, s.holders, EscrowRefunded(s, k).holders, LapsedSbd(s0.escrows, now),
                  LapsedSbd(s.escrows, now),
                  LapsedTo(s0.escrows, now), LapsedTo(s.escrows, now), k);
  }

  lemma LapsedAmounts(es: Escrows, now: int, k: Key)
    requires k in es && Expired(es[k], now)
    ensures LapsedSteem(es, now)[k] == SteemIn(es[k]) && LapsedSbd(es, now)[k] == SbdIn(es[k])
    ensures LapsedTo(es, now)[k] == k.0
  {
  }

  lemma EscrowsSettled(s0: State, s: State)
    requires EscrowsSettling(s0, s) && !exists k :: k in s.escrows && Expired(s.escrows[k], s0.env.now)
    ensures PaidOff(s0.env, s0.holders, s.holders, LapsedSteem(s0.escrows, s0.env.now),
                    LapsedSbd(s0.escrows, s0.env.now), LapsedTo(s0.escrows, s0.env.now))
  {
    hide Sum, Group;
    var now := s0.env.now;
    NoneLapsed(s.escrows, now);
    AllSettled(s0.env, s0.holders, s.holders, LapsedSteem(s0.escrows, now), LapsedSteem(s.escrows, now),
               LapsedTo(s0.escrows, now), LapsedTo(s.escrows, now));
    AllSettled(s0.env, s0.holders, s.holders, LapsedSbd(s0.escrows, now), LapsedSbd(s.escrows, now),
               LapsedTo(s0.escrows, now), LapsedTo(s.escrows, now));
  }

  ghost predicate OrdersSettling(s0: State, s: State) {
    var now := s0.env.now;
    && Settling<nat>(s0.holders, s.holders, StaleSteem(s0.orders, now), StaleSteem(s.orders, now),
                     StaleTo(s0.orders, now), StaleTo(s.orders, now))
    && SettlingSbd<nat>(s0.env, s0.holders, s.holders, StaleSbd(s0.orders, now), StaleSbd(s.orders, now),
                        StaleTo(s0.orders, now), StaleTo(s.orders, now))
  }

  lemma OrderSettles(s0: State, s: State, i: nat)
    requires InOrder(s) && s.env == s0.env && i in s.orders && s.orders[i].expiration < s0.env.now
    requires OrdersSettling(s0, s)
    ensures OrdersSettling(s0, OrderCancelled(s, i))
  {
    hide InOrder, GapsMoved, OnlyPaid, StaleSteem, StaleSbd, StaleTo, Settling, SettlingSbd;
    var now := s0.env.now;
    CancelPays(s, i);
    PaidAmounts(s, OrderCancelled(s, i), s.orders[i].seller, SteemOf(s.orders[i]), SbdOf(s.orders[i]));
    StaleWithout(s.orders, now, i);
    StaleAmounts(s.orders, now, i);
    OneSettled<nat>(s0.holders, s.holders, OrderCancelled(s, i).holders, StaleSteem(s0.orders, now),
                    StaleSteem(s.orders, now),
                    StaleTo(s0.orders, now), StaleTo(s.orders, now), i);
    OneSettledSbd<nat>(s0.env, s0.holders, s.holders, OrderCancelled(s, i).holders, StaleSbd(s0.orders, now),
                       StaleSbd(s.orders, now),
                       StaleTo(s0.orders, now), StaleTo(s.orders, now), i);
  }

  lemma StaleAmounts(book: Book, now: int, i: nat)
    requires i in book && book[i].expiration < now
    ensures StaleSteem(book, now)[i] == SteemOf(book[i]) && StaleSbd(book, now)[i] == SbdOf(book[i])
    ensures StaleTo(book, now)[i] == book[i].seller
  {
  }

  lemma OrdersSettled(s0: State, s: State)
    requires OrdersSettling(s0, s) && !exists i :: i in s.orders && s.orders[i].expiration < s0.env.now
    ensures PaidOff<nat>(s0.env, s0.holders, s.holders, StaleSteem(s0.orders, s0.env.now),
                         StaleSbd(s0.orders, s0.env.now), StaleTo(s0.orders, s0.env.now))
  {
    hide Sum, Group;
    var now := s0.env.now;
    NoneStale(s.orders, now);
    AllSettled<nat>(s0.env, s0.holders, s.holders, StaleSteem(s0.orders, now), StaleSteem(s.orders, now),
                    StaleTo(s0.orders, now), StaleTo(s.orders, now));
    AllSettled<nat>(s0.env, s0.holders, s.holders, StaleSbd(s0.orders, now), StaleSbd(s.orders, now),
                    StaleTo(s0.orders, now), StaleTo(s.orders, now));
  }

  lemma SettlingStarts(s: State)
    ensures WithdrawalsSettling(s, s) && EscrowsSettling(s, s) && OrdersSettling(s, s)
    ensures s.feed.Feed? && s.feed.sbd > 0 ==> ConversionsSettling(s, s)
  {
    hide Sum, Group;
  }

  // ----- withdrawals -----

  /** The vesting pool and what `vests` shares are worth in it. */
  datatype Pool = Pool(vests: int, fund: int)

  function Worth(p: Pool, vests: int): int {
    if p.vests >= 0 then SteemFor(vests, p.vests, p.fund) else 0
  }

  /** The pool after the first n routes: every cash route is paid at the price the routes before it leave. */
  function PoolAfter(p: Pool, routes: seq<Route>, amount: nat, n: nat): Pool
    requires n <= |routes|
  {
    if n == 0 then p
    else
      var q := PoolAfter(p, routes, amount, n - 1);
      var deposit := Deposit(amount, routes[n - 1].percent);
      if routes[n - 1].autoVest then q else Pool(q.vests - deposit, q.fund - Worth(q, deposit))
  }

  /** The tokens that the first n routes bring to `a`. */
  function TokensTo(p: Pool, routes: seq<Route>, amount: nat, n: nat, a: Name): int
    requires n <= |routes|
  {
    if n == 0 then 0
    else
      TokensTo(p, routes, amount, n - 1, a)
        + if !routes[n - 1].autoVest && routes[n - 1].to == a
          then Worth(PoolAfter(p, routes, amount, n - 1), Deposit(amount, routes[n - 1].percent)) else 0
  }

  function PoolOf(s: State): Pool {
    Pool(s.totalVests, s.vestFund)
  }

  /** Nothing has changed about the price of shares. */
  predicate SamePool(s: State, r: State) {
    PoolOf(r) == PoolOf(s)
  }

  /** After n routes the pool and every liquid balance are as stated. */
  ghost predicate CashRouted(s: State, r: State, routes: seq<Route>, amount: nat, n: nat)
    requires n <= |routes|
  {
    && r.holders.Keys == s.holders.Keys && PoolOf(r) == PoolAfter(PoolOf(s), routes, amount, n)
    && forall a {:trigger r.holders[a]} :: a in s.holders ==>
         && r.holders[a].steem == s.holders[a].steem + TokensTo(PoolOf(s), routes, amount, n, a)
         && r.holders[a].sbd == s.holders[a].sbd
  }

  lemma CashedOutPays(s: State, a: Name, vests: int)
    requires InOrder(s) && a in s.holders && 0 <= vests <= s.totalVests
    ensures var r := CashedOut(s, a, vests);
            && r.holders.Keys == s.holders.Keys
            && PoolOf(r) == Pool(s.totalVests - vests, s.vestFund - Worth(PoolOf(s), vests))
            && forall b {:trigger r.holders[b]} :: b in s.holders ==>
                 && (r.holders[b].steem == s.holders[b].steem + if b == a then Worth(PoolOf(s), vests) else 0)
                 && r.holders[b].sbd == s.holders[b].sbd
  {
    hide GapsMoved;
    CashOutWithinFund(vests, s.totalVests, s.vestFund);
  }

  lemma OneMoreCashed(s: State, r: State, routes: seq<Route>, amount: nat, n: nat)
    requires n < |routes| && CashRouted(s, r, routes, amount, n)
    ensures routes[n].autoVest ==> CashRouted(s, r, routes, amount, n + 1)
    ensures !routes[n].autoVest && InOrder(r) && routes[n].to in r.holders &&
            Deposit(amount, routes[n].percent) <= r.totalVests ==>
              CashRouted(s, CashedOut(r, routes[n].to, Deposit(amount, routes[n].percent)), routes, amount, n + 1)
  {
    hide GapsMoved, InOrder, CashedOut, Worth, Deposit;
    var deposit := Deposit(amount, routes[n].percent);
    if !routes[n].autoVest && InOrder(r) && routes[n].to in r.holders && deposit <= r.totalVests {
      CashedOutPays(r, routes[n].to, deposit);
      var r' := CashedOut(r, routes[n].to, deposit);
      forall a | a in s.holders
        ensures r'.holders[a].steem == s.holders[a].steem + TokensTo(PoolOf(s), routes, amount, n + 1, a)
        ensures r'.holders[a].sbd == s.holders[a].sbd
      {
        assert r.holders[a] == r.holders[a];
      }
    } else if routes[n].autoVest {
      forall a | a in s.holders
        ensures r.holders[a].steem == s.holders[a].steem + TokensTo(PoolOf(s), routes, amount, n + 1, a)
      {
        assert r.holders[a] == r.holders[a];
      }
    }
  }
}
