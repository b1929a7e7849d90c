/** How a post's curation reward is divided among its curators, the reward fund and the author. */
module CurationPayout {
  import opened Arith
  import opened Common
  import opened Curation

  /** Who gets the part of the reward that the auction window held back. */
  datatype Destination = ToRewardFund | ToCurators | ToAuthor

  datatype Terms = Terms(max: nat, window: nat, destination: Destination, allowed: bool, info: Info)

  datatype Payment = Payment(vote: Vote, amount: nat)

  predicate TermsOk(t: Terms) {
    Consistent(t.window, t.info)
  }

  function AuctionReward(t: Terms): nat
    requires t.info.total > 0
  {
    t.max * t.info.auction / t.info.total
  }

  /** Votes cast after the window share the auction reward when it goes to the curators. */
  predicate SharesAuction(t: Terms, e: Entry) {
    t.destination == ToCurators && !Early(t.window, e.vote)
  }

  function Base(t: Terms, weight: nat): nat
    requires t.info.total > 0
  {
    t.max * weight / t.info.total
  }

  function Bonus(t: Terms, weight: nat): nat
    requires t.info.total > 0
  {
    if t.info.late > 0 then AuctionReward(t) * weight / t.info.late else 0
  }

  function Claim(t: Terms, e: Entry): nat
    requires t.info.total > 0
  {
    Base(t, e.weight) + if SharesAuction(t, e) then Bonus(t, e.weight) else 0
  }

  /** Payments made going down the list. The first vote that shares in the auction is set aside; the
      first claim that rounds to nothing ends the list. */
  function Payments(t: Terms, list: seq<Entry>, aside: bool): seq<Payment>
    requires t.info.total > 0
  {
    if list == [] then []
    else if SharesAuction(t, list[0]) && !aside then Payments(t, list[1..], true)
    else if Claim(t, list[0]) == 0 then []
    else [Payment(list[0].vote, Claim(t, list[0]))] + Payments(t, list[1..], aside)
  }

  function SetAside(t: Terms, list: seq<Entry>): Option<Entry>
    requires t.info.total > 0
  {
    if list == [] then None
    else if SharesAuction(t, list[0]) then Some(list[0])
    else if Claim(t, list[0]) == 0 then None
    else SetAside(t, list[1..])
  }

  function Amounts(payments: seq<Payment>): nat {
    if payments == [] then 0 else Amounts(payments[..|payments| - 1]) + payments[|payments| - 1].amount
  }

  lemma {:induction false} AmountsOfTail(p: Payment, payments: seq<Payment>)
    ensures Amounts([p] + payments) == p.amount + Amounts(payments)
  {
    var all := [p] + payments;
    if payments == [] {
      assert all[..|all| - 1] == payments;
    } else {
      assert all[..|all| - 1] == [p] + payments[..|payments| - 1];
      AmountsOfTail(p, payments[..|payments| - 1]);
    }
  }

  lemma {:induction false} AmountsOfPrefix(prefix: seq<Payment>, rest: seq<Payment>)
    ensures Amounts(prefix) <= Amounts(prefix + rest)
    decreases |rest|
  {
    if rest != [] {
      AmountsOfPrefix(prefix, rest[..|rest| - 1]);
      assert (prefix + rest)[..|prefix + rest| - 1] == prefix + rest[..|rest| - 1];
    } else {
      assert prefix + rest == prefix;
    }
  }

  lemma AmountsOfMore(payments: seq<Payment>, p: Payment)
    ensures Amounts(payments + [p]) == Amounts(payments) + p.amount
  {
    assert (payments + [p])[..|payments|] == payments;
  }

  // ----- the claims never exceed the reward -----

  function BaseSum(t: Terms, list: seq<Entry>): nat
    requires t.info.total > 0
  {
    if list == [] then 0 else Base(t, list[0].weight) + BaseSum(t, list[1..])
  }

  function BonusSum(t: Terms, list: seq<Entry>): nat
    requires t.info.total > 0
  {
    if list == [] then 0
    else (if SharesAuction(t, list[0]) then Bonus(t, list[0].weight) else 0) + BonusSum(t, list[1..])
  }

  function AllWeight(window: nat, list: seq<Entry>): nat {
    ListWeight(window, true, list) + ListWeight(window, false, list)
  }

  /** Rounded shares of `amount` in proportion to weights do not exceed the share of the summed weights. */
  lemma SharesAdd(amount: nat, part: nat, w: nat, rest: nat, weights: nat, total: nat)
    requires total > 0 && part == amount * w / total && total * rest <= amount * weights
    ensures total * (part + rest) <= amount * (w + weights)
  {
    FloorBounds(amount * w, total);
    assert total * (part + rest) == total * part + total * rest;
    assert amount * (w + weights) == amount * w + amount * weights;
  }

  lemma {:induction false} BasesWithin(t: Terms, list: seq<Entry>)
    requires t.info.total > 0
    ensures t.info.total * BaseSum(t, list) <= t.max * AllWeight(t.window, list)
  {
    if list != [] {
      BasesWithin(t, list[1..]);
      SharesAdd(t.max, Base(t, list[0].weight), list[0].weight, BaseSum(t, list[1..]),
                AllWeight(t.window, list[1..]), t.info.total);
    }
  }

  lemma {:induction false} BonusesWithin(t: Terms, list: seq<Entry>)
    requires t.info.total > 0 && t.info.late > 0
    ensures t.info.late * BonusSum(t, list) <= AuctionReward(t) * ListWeight(t.window, false, list)
  {
    hide AuctionReward;
    if list != [] {
      BonusesWithin(t, list[1..]);
      if SharesAuction(t, list[0]) {
        SharesAdd(AuctionReward(t), Bonus(t, list[0].weight), list[0].weight, BonusSum(t, list[1..]),
                  ListWeight(t.window, false, list[1..]), t.info.late);
      } else {
        MulMono(ListWeight(t.window, false, list[1..]), ListWeight(t.window, false, list), AuctionReward(t));
      }
    }
  }

  lemma {:induction false} NoBonus(t: Terms, list: seq<Entry>)
    requires t.info.total > 0 && t.info.late == 0
    ensures BonusSum(t, list) == 0
  {
    if list != [] {
      NoBonus(t, list[1..]);
    }
  }

  /** All claims together, the redistributed auction share included, stay within the curation reward. */
  lemma ClaimsWithin(t: Terms)
    requires TermsOk(t) && t.info.total > 0
    ensures BaseSum(t, t.info.list) + BonusSum(t, t.info.list) <= t.max
  {
    var list := t.info.list;
    BasesWithin(t, list);
    FloorBounds(t.max * t.info.auction, t.info.total);
    if t.info.late > 0 {
      BonusesWithin(t, list);
      Cancelled(t.info.late, BonusSum(t, list), AuctionReward(t));
    } else {
      NoBonus(t, list);
    }
    Combined(t.info.total, BaseSum(t, list), BonusSum(t, list), AuctionReward(t), t.max, t.info.early + t.info.late,
             t.info.auction);
  }

  lemma Cancelled(late: int, bonus: int, reward: int)
    requires late > 0 && late * bonus <= reward * late
    ensures bonus <= reward
  {
    assert late * bonus == bonus * late;
    Cancel(bonus, reward, late);
  }

  lemma Combined(total: int, base: int, bonus: int, reward: int, max: int, votes: int, auction: int)
    requires total > 0 && total == votes + auction
    requires total * base <= max * votes && bonus <= reward && total * reward <= max * auction
    ensures base + bonus <= max
  {
    MulMono(bonus, reward, total);
    assert (base + bonus) * total == total * base + bonus * total;
    assert max * total == max * votes + max * auction;
    assert reward * total == total * reward;
    Cancel(base + bonus, max, total);
  }

  /** Payments are claims of different entries; the claim of the one set aside is left for it. */
  lemma {:induction false} PaymentsWithin(t: Terms, list: seq<Entry>, aside: bool)
    requires t.info.total > 0
    ensures Amounts(Payments(t, list, aside))
              + (if !aside && SetAside(t, list).Some? then Claim(t, SetAside(t, list).value) else 0)
            <= BaseSum(t, list) + BonusSum(t, list)
  {
    hide Base, Bonus;
    if list != [] {
      if SharesAuction(t, list[0]) && !aside {
        PaymentsWithin(t, list[1..], true);
      } else if Claim(t, list[0]) > 0 {
        PaymentsWithin(t, list[1..], aside);
        AmountsOfTail(Payment(list[0].vote, Claim(t, list[0])), Payments(t, list[1..], aside));
      }
    }
  }

  // ----- the division -----

  datatype Division = Division(payments: seq<Payment>, toFund: nat, toAuthor: nat)

  /** What pay_curators does with the reward. */
  function Divide(t: Terms): Division
    requires TermsOk(t)
  {
    if !t.allowed then Division([], t.max, 0)
    else if t.info.total == 0 then Returned(t, [], t.max)
    else
      var payments := Payments(t, t.info.list, false);
      match SetAside(t, t.info.list)
      case Some(e) => Division(payments + [Payment(e.vote, Unclaimed(t))], 0, 0)
      case None => Returned(t, payments, Unclaimed(t))
  }

  /** What the payments down the list leave unclaimed. */
  function Unclaimed(t: Terms): (r: nat)
    requires TermsOk(t) && t.info.total > 0
  {
    ClaimsWithin(t);
    PaymentsWithin(t, t.info.list, false);
    t.max - Amounts(Payments(t, t.info.list, false))
  }

  function Returned(t: Terms, payments: seq<Payment>, rest: nat): Division {
    if t.destination == ToAuthor then Division(payments, 0, rest) else Division(payments, rest, 0)
  }

  /** The division is exact: curators, fund and author together get the whole reward. The author gets
      something only if the auction share is theirs, the vote set aside gets at least its own claim, and
      when a vote is set aside the curators get everything. */
  lemma DivideConserves(t: Terms)
    requires TermsOk(t)
    ensures var d := Divide(t);
            && Amounts(d.payments) + d.toFund + d.toAuthor == t.max
            && (d.toAuthor > 0 ==> t.destination == ToAuthor && t.allowed)
            && (t.allowed && t.info.total > 0 && SetAside(t, t.info.list).Some? ==>
                  && d.payments != []
                  && d.payments[|d.payments| - 1].vote == SetAside(t, t.info.list).value.vote
                  && d.payments[|d.payments| - 1].amount >= Claim(t, SetAside(t, t.info.list).value)
                  && Amounts(d.payments) == t.max)
  {
    if t.allowed && t.info.total > 0 {
      ClaimsWithin(t);
      PaymentsWithin(t, t.info.list, false);
      var payments := Payments(t, t.info.list, false);
      match SetAside(t, t.info.list)
      case Some(e) => AmountsOfMore(payments, Payment(e.vote, Unclaimed(t)));
      case None =>
    }
  }

  /** A claim is the vote's part of the reward, rounded down, and a late vote's also its part of what the auction held
      back. */
  lemma ClaimIsShare(t: Terms, e: Entry)
    requires t.info.total > 0
    ensures IsFloor(Base(t, e.weight), t.max * e.weight, t.info.total)
    ensures IsFloor(AuctionReward(t), t.max * t.info.auction, t.info.total)
    ensures t.info.late > 0 ==> IsFloor(Bonus(t, e.weight), AuctionReward(t) * e.weight, t.info.late)
    ensures Claim(t, e) - Base(t, e.weight) ==
              if t.destination == ToCurators && e.vote.auctionTime == t.window then Bonus(t, e.weight) else 0
  {
    FloorIs(t.max * e.weight, t.info.total);
    FloorIs(t.max * t.info.auction, t.info.total);
    if t.info.late > 0 {
      FloorIs(AuctionReward(t) * e.weight, t.info.late);
    }
  }

  /** Of two votes on the same side of the window, the heavier one claims at least as much. */
  lemma ClaimFollowsWeight(t: Terms, a: Entry, b: Entry)
    requires t.info.total > 0 && a.weight <= b.weight && Early(t.window, a.vote) == Early(t.window, b.vote)
    ensures Claim(t, a) <= Claim(t, b)
  {
    RisesWithWeight(t.max, a.weight, b.weight, t.info.total);
    if t.info.late > 0 {
      RisesWithWeight(AuctionReward(t), a.weight, b.weight, t.info.late);
    }
  }

  lemma RisesWithWeight(amount: nat, v: nat, w: nat, total: nat)
    requires v <= w && total > 0
    ensures amount * v / total <= amount * w / total
  {
    MulMono(v, w, amount);
    DivMonotone(amount * v, amount * w, total);
  }
}
