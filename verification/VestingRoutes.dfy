/** Withdrawal routes: how a power-down is divided among the accounts that a holder has named. */
module VestingRoutes {
  import opened Common
  import opened Arith

  datatype Route = Route(to: Name, percent: nat, autoVest: bool)

  /** The share of a withdrawal that one route takes. */
  function Deposit(amount: nat, percent: nat): nat {
    amount * percent / HUNDRED_PERCENT
  }

  function Deposited(routes: seq<Route>, amount: nat, autoVest: bool): nat {
    if routes == [] then 0
    else
      var r := routes[|routes| - 1];
      Deposited(routes[..|routes| - 1], amount, autoVest)
        + if r.autoVest == autoVest then Deposit(amount, r.percent) else 0
  }

  /** The shares that the routes hand to `a`. */
  ghost function ReceivedBy(routes: seq<Route>, amount: nat, a: Name): nat {
    if routes == [] then 0
    else
      var r := routes[|routes| - 1];
      ReceivedBy(routes[..|routes| - 1], amount, a)
        + if r.autoVest && r.to == a then Deposit(amount, r.percent) else 0
  }

  predicate RoutesTo(routes: seq<Route>, names: set<Name>) {
    forall i :: 0 <= i < |routes| ==> routes[i].to in names
  }

  lemma RouteStep(routes: seq<Route>, amount: nat, i: nat, a: Name)
    requires i < |routes|
    ensures ReceivedBy(routes[..i + 1], amount, a) == ReceivedBy(routes[..i], amount, a)
              + if routes[i].autoVest && routes[i].to == a then Deposit(amount, routes[i].percent) else 0
    ensures Deposited(routes[..i + 1], amount, true) == Deposited(routes[..i], amount, true)
              + if routes[i].autoVest then Deposit(amount, routes[i].percent) else 0
    ensures Deposited(routes[..i + 1], amount, false) == Deposited(routes[..i], amount, false)
              + if routes[i].autoVest then 0 else Deposit(amount, routes[i].percent)
  {
    assert routes[..i + 1][..i] == routes[..i];
  }

  function PercentSum(routes: seq<Route>): nat {
    if routes == [] then 0 else PercentSum(routes[..|routes| - 1]) + routes[|routes| - 1].percent
  }

  /** Rounding down, the routes never hand out more than is withdrawn. */
  lemma DepositsWithin(routes: seq<Route>, amount: nat)
    requires PercentSum(routes) <= HUNDRED_PERCENT
    ensures Deposited(routes, amount, true) + Deposited(routes, amount, false) <= amount
  {
    DepositsBelowShare(routes, amount);
    ShareBelowWhole(amount, PercentSum(routes));
  }

  lemma ShareBelowWhole(amount: nat, percent: nat)
    requires percent <= HUNDRED_PERCENT
    ensures amount * percent <= amount * HUNDRED_PERCENT
  {
  }

  lemma {:induction false} DepositsBelowShare(routes: seq<Route>, amount: nat)
    ensures HUNDRED_PERCENT * (Deposited(routes, amount, true) + Deposited(routes, amount, false))
         <= amount * PercentSum(routes)
  {
    if routes != [] {
      var shorter, r := routes[..|routes| - 1], routes[|routes| - 1];
      DepositsBelowShare(shorter, amount);
      assert HUNDRED_PERCENT * Deposit(amount, r.percent) <= amount * r.percent;
      assert amount * PercentSum(routes) == amount * PercentSum(shorter) + amount * r.percent;
    }
  }

  /** The amount that process_vesting_withdrawals takes in one step: the weekly rate, or what is left
      of the request, and never more than is held. */
  function DueWithdrawal(vests: int, target: int, withdrawn: int, rate: int): int
    requires rate > 0
  {
    var wanted := if target - withdrawn < rate then target % rate else rate;
    var held := if vests < wanted then vests else wanted;
    if held < 0 then 0 else held
  }

  lemma WithinHeld(vests: nat, target: int, withdrawn: int, rate: int)
    requires rate > 0
    ensures 0 <= DueWithdrawal(vests, target, withdrawn, rate) <= vests
  {
  }

  lemma MultipleLeaves(t: int, w: int, r: int)
    requires r > 0 && w % r == 0
    ensures (w + r) % r == 0
    ensures 0 <= t - w < r ==> t % r == t - w
  {
    var k := w / r;
    assert w == r * k;
    FloorUnique(k + 1, w + r, r);
    if 0 <= t - w < r {
      FloorUnique(k, t, r);
    }
  }

  /** The step stays within the target unless the remainder of the target by the rate, which is taken when less than the
      rate is left, is more than what is left. */
  lemma StepWithinTarget(vests: int, target: int, withdrawn: int, rate: int)
    requires rate > 0 && withdrawn <= target
    ensures withdrawn + DueWithdrawal(vests, target, withdrawn, rate) <= target
       <==> target - withdrawn >= rate || vests <= target - withdrawn || target % rate <= target - withdrawn
  {
  }

  /** As long as only whole rates have been taken, the step is the rate or what is left, as far as shares are held. */
  lemma WholeStep(vests: nat, target: int, withdrawn: int, rate: int)
    requires rate > 0 && withdrawn <= target && withdrawn % rate == 0
    ensures DueWithdrawal(vests, target, withdrawn, rate) == Least(vests, Least(rate, target - withdrawn))
  {
    MultipleLeaves(target, withdrawn, rate);
  }

  function Least(a: int, b: int): int {
    if a <= b then a else b
  }

  // ----- a whole withdrawal -----

  /** A week of a withdrawal: the shares the account holds when the step is due, and what it is left with. */
  datatype Week = Week(held: nat, left: nat)

  function Withdrawn(weeks: seq<Week>, target: int, rate: int): int
    requires rate > 0
  {
    if weeks == [] then 0
    else
      var before := Withdrawn(weeks[..|weeks| - 1], target, rate);
      before + DueWithdrawal(weeks[|weeks| - 1].held, target, before, rate)
  }

  /** It goes on for all these weeks: until the target is reached or the account is left with no shares. */
  ghost predicate GoesOn(weeks: seq<Week>, target: int, rate: int)
    requires rate > 0
  {
    forall i {:trigger weeks[..i]} :: 0 <= i < |weeks| ==>
      Withdrawn(weeks[..i], target, rate) < target && (i > 0 ==> weeks[i - 1].left != 0)
  }

  /** No route brings shares back to the account. */
  ghost predicate NothingComesBack(weeks: seq<Week>, target: int, rate: int)
    requires rate > 0
  {
    forall i {:trigger weeks[..i]} :: 0 <= i < |weeks| ==>
      weeks[i].left == weeks[i].held - DueWithdrawal(weeks[i].held, target, Withdrawn(weeks[..i], target, rate), rate)
  }

  lemma WeekBefore(weeks: seq<Week>, target: int, rate: int)
    requires rate > 0 && weeks != [] && GoesOn(weeks, target, rate)
    ensures var n := |weeks| - 1;
            && GoesOn(weeks[..n], target, rate) && Withdrawn(weeks[..n], target, rate) < target
            && (n > 0 ==> weeks[..n][n - 1].left != 0)
    ensures NothingComesBack(weeks, target, rate) ==> NothingComesBack(weeks[..|weeks| - 1], target, rate)
  {
    var n := |weeks| - 1;
    assert weeks[..n] == weeks[..n];
    assert forall i :: 0 <= i < n ==> weeks[..n][..i] == weeks[..i];
  }

  /** A withdrawal that brings nothing back to its own account never takes more than its target, whatever is held from
      week to week. */
  lemma {:induction false} WithdrawalWithinTarget(weeks: seq<Week>, target: nat, rate: int)
    requires rate > 0 && GoesOn(weeks, target, rate) && NothingComesBack(weeks, target, rate)
    ensures 0 <= Withdrawn(weeks, target, rate) <= target
    ensures Withdrawn(weeks, target, rate) % rate == 0 || Withdrawn(weeks, target, rate) == target
         || weeks[|weeks| - 1].left == 0
  {
    if weeks != [] {
      var before, last := weeks[..|weeks| - 1], weeks[|weeks| - 1];
      WeekBefore(weeks, target, rate);
      WithdrawalWithinTarget(before, target, rate);
      var w := Withdrawn(before, target, rate);
      WholeStep(last.held, target, w, rate);
      MultipleLeaves(target, w, rate);
      assert last.left == last.held - DueWithdrawal(last.held, target, w, rate);
    }
  }

  /** The target was held when the withdrawal began, and nothing but the withdrawal takes shares away. */
  ghost predicate Covered(weeks: seq<Week>, target: int, rate: int)
    requires rate > 0
  {
    forall i :: 0 <= i < |weeks| ==> CoveredAt(weeks, i, target, rate)
  }

  ghost predicate CoveredAt(weeks: seq<Week>, i: nat, target: int, rate: int)
    requires rate > 0 && i < |weeks|
  {
    && weeks[i].held >= (if i == 0 then target else weeks[i - 1].left)
    && weeks[i].left >= weeks[i].held - DueWithdrawal(weeks[i].held, target, Withdrawn(weeks[..i], target, rate), rate)
  }

  lemma CoveredBefore(weeks: seq<Week>, target: int, rate: int)
    requires rate > 0 && weeks != [] && Covered(weeks, target, rate)
    ensures Covered(weeks[..|weeks| - 1], target, rate) && CoveredAt(weeks, |weeks| - 1, target, rate)
  {
    hide Withdrawn, DueWithdrawal;
    var before := weeks[..|weeks| - 1];
    forall i | 0 <= i < |before| ensures CoveredAt(before, i, target, rate) {
      assert CoveredAt(weeks, i, target, rate);
      assert before[..i] == weeks[..i];
    }
  }

  /** Then every week takes the whole rate until exactly the target is reached, with any routes. */
  lemma {:induction false} CoveredReachesTarget(weeks: seq<Week>, target: nat, rate: int)
    requires rate > 0 && GoesOn(weeks, target, rate) && Covered(weeks, target, rate)
    ensures Withdrawn(weeks, target, rate) == Least(|weeks| * rate, target)
    ensures weeks != [] ==> weeks[|weeks| - 1].left >= target - Withdrawn(weeks, target, rate)
  {
    if weeks != [] {
      var n := |weeks| - 1;
      WeekBefore(weeks, target, rate);
      CoveredBefore(weeks, target, rate);
      CoveredReachesTarget(weeks[..n], target, rate);
      assert (n + 1) * rate == n * rate + rate;
      Multiple(n, rate);
      WholeStep(weeks[n].held, target, n * rate, rate);
    }
  }

  lemma Multiple(n: nat, r: int)
    requires r > 0
    ensures n * r % r == 0
  {
    FloorUnique(n, n * r, r);
  }

  lemma {:induction false} PrefixDeposits(routes: seq<Route>, amount: nat, autoVest: bool, i: nat)
    requires i <= |routes|
    ensures Deposited(routes[..i], amount, autoVest) <= Deposited(routes, amount, autoVest)
    decreases |routes|
  {
    if i == |routes| {
      assert routes[..i] == routes;
    } else {
      var shorter := routes[..|routes| - 1];
      PrefixDeposits(shorter, amount, autoVest, i);
      assert shorter[..i] == routes[..i];
    }
  }
}
