/** Whole runs: any sequence of the modelled operations keeps the supplies exact and the reward sums right. */
module LedgerRuns {
  import opened Common
  import opened Market
  import opened LedgerState
  import opened LedgerSteps
  import opened LedgerPayments
  import opened SharePrice
  import opened Requests
  import opened Ledger
  import opened VestingRoutes
  import opened TreeSums
  import opened CommentForest
  import opened Discussions
  import CashoutSteps
  import opened Payouts

  datatype Step =
    | NextBlock(env: Env, feed: Feed)
    | NewAccount(creator: Name, name: Name, fee: nat, minFee: nat)
    | Transfer(from: Name, to: Name, amount: nat, inSteem: bool)
    | ToVesting(from: Name, to: Name, amount: nat)
    | ToSavings(from: Name, to: Name, amount: nat, inSteem: bool)
    | FromSavings(from: Name, to: Name, id: nat, amount: nat, inSteem: bool)
    | CancelSavings(from: Name, id: nat)
    | PaySavings
    | OpenEscrow(from: Name, id: nat, escrow: Escrow)
    | ApproveEscrow(from: Name, id: nat, to: Name, agent: Name, who: Name, approve: bool)
    | DisputeEscrow(from: Name, id: nat, to: Name, agent: Name)
    | ReleaseEscrow(from: Name, id: nat, to: Name, agent: Name, who: Name, receiver: Name, steem: nat, sbd: nat)
    | ExpireEscrows
    | Convert(owner: Name, id: nat, amount: nat)
    | PayConversions
    | Sell(order: Order, fillOrKill: bool)
    | CancelOrder(owner: Name, orderId: nat)
    | ExpireOrders
    | PowerDown(from: Name, target: int, withdrawn: int, rate: int, routes: seq<Route>)
    | Inflate(producer: Name, virtualSupply: nat, headBlock: nat, weight: nat, factor: nat)
    | Burn(name: Name)
    | Post(id: Id, parent: Option<Id>, cashout: int, producing: bool, repliesAllowed: bool)
    | Vote(id: Id, rshares: int)
    | Revote(id: Id, before: int, rshares: int)
    | Delete(id: Id, producing: bool)
    | CashOutDue(posts: map<Id, CashoutSteps.Post>, printRate: nat)

  /** What validation and the surrounding block processing guarantee before a step is evaluated. */
  predicate Admissible(s: State, cs: Comments, step: Step) {
    match step
    case NextBlock(env, feed) => s.env.now <= env.now && FeedOk(feed)
    case NewAccount(_, _, _, _) => s.env.now >= 0
    case FromSavings(_, _, _, amount, _) => amount > 0
    case OpenEscrow(_, _, e) =>
      e.steem >= 0 && e.sbd >= 0 && e.fee >= 0 && !e.toApproved && !e.agentApproved && !e.disputed
    case ApproveEscrow(_, _, to, agent, who, _) => who == to || who == agent
    case Convert(_, _, amount) => amount > 0
    case Sell(o, _) =>
      && s.steemSupply < INT64_LIMIT && s.sbdSupply < INT64_LIMIT
      && o.forSale > 0 && o.base > 0 && o.quote > 0 && 0 < ToReceive(o) < INT64_LIMIT
    case PowerDown(from, _, _, rate, routes) =>
      from in s.holders && rate > 0 && RoutesTo(routes, s.holders.Keys) && PercentSum(routes) <= HUNDRED_PERCENT
    case Inflate(producer, _, _, _, factor) => producer in s.holders && factor > 0
    case Burn(name) => name in s.holders
    case CashOutDue(posts, printRate) => PostsOk(posts, cs, s.holders.Keys) && printRate <= HUNDRED_PERCENT
    case _ => true
  }

  predicate OnLedger(step: Step) {
    !step.Post? && !step.Vote? && !step.Revote? && !step.Delete? && !step.CashOutDue?
  }

  method Move(l: Ledger, ghost comments: Comments, step: Step)
    requires l.Valid() && OnLedger(step) && Admissible(l.db, comments, step)
    modifies l
    ensures l.Valid() && PriceKept(old(l.db), l.db)
  {
    hide Counted, InOrder, Conserved, Uncrossed, NoCheaper;
    SamePoolKeepsPrice(l.db, l.db);
    match step
    case NextBlock(env, feed) => l.NextBlock(env, feed);
    case NewAccount(creator, name, fee, minFee) => var _ := l.CreateAccount(creator, name, fee, minFee);
    case Transfer(from, to, amount, inSteem) => var _ := l.Transfer(from, to, amount, inSteem);
    case ToVesting(from, to, amount) => var _ := l.TransferToVesting(from, to, amount);
    case ToSavings(from, to, amount, inSteem) => var _ := l.TransferToSavings(from, to, amount, inSteem);
    case FromSavings(from, to, id, amount, inSteem) => var _ := l.TransferFromSavings(from, to, id, amount, inSteem);
    case CancelSavings(from, id) => var _ := l.CancelFromSavings(from, id);
    case PaySavings => l.ProcessSavingsWithdraws();
    case OpenEscrow(from, id, e) => var _ := l.EscrowTransfer(from, id, e);
    case ApproveEscrow(from, id, to, agent, who, approve) =>
      var _ := l.EscrowApprove(from, id, to, agent, who, approve);
    case DisputeEscrow(from, id, to, agent) => var _ := l.EscrowDispute(from, id, to, agent);
    case ReleaseEscrow(from, id, to, agent, who, receiver, steem, sbd) =>
      var _ := l.EscrowRelease(from, id, to, agent, who, receiver, steem, sbd);
    case ExpireEscrows => l.ExpireEscrows();
    case Convert(owner, id, amount) => var _ := l.ConvertRequest(owner, id, amount);
    case PayConversions => l.ProcessConversions();
    case Sell(o, fillOrKill) => var _ := l.CreateOrder(o, fillOrKill);
    case CancelOrder(owner, orderId) => var _ := l.CancelOrder(owner, orderId);
    case ExpireOrders => l.ExpireOrders();
    case PowerDown(from, target, withdrawn, rate, routes) =>
      var _ := l.PowerDown(from, target, withdrawn, rate, routes);
    case Inflate(producer, virtualSupply, headBlock, weight, factor) =>
      l.ProcessFunds(producer, virtualSupply, headBlock, weight, factor);
    case Burn(name) => l.ClearNull(name);
  }

  /** Posting, voting and deleting touch only the comments. */
  method Discuss(f: Forum, step: Step)
    requires f.Valid() && !OnLedger(step) && !step.CashOutDue?
    modifies f
    ensures f.Valid()
  {
    hide ForestOk, SharesOnly, ChildrenOnly, WithNet;
    match step
    case Post(id, parent, cashout, producing, repliesAllowed) =>
      var _ := f.Create(id, parent, cashout, producing, repliesAllowed);
    case Vote(id, rshares) => var _ := f.Vote(id, rshares);
    case Revote(id, before, rshares) => var _ := f.Revote(id, before, rshares);
    case Delete(id, producing) => var _ := f.Delete(id, producing);
  }

  method Perform(l: Ledger, f: Forum, step: Step)
    requires l.Valid() && f.Valid() && Admissible(l.db, f.comments, step)
    modifies l, f
    ensures l.Valid() && f.Valid() && PriceKept(old(l.db), l.db)
  {
    hide Counted, InOrder, Conserved, ForestOk, Uncrossed, PostsOk, NoCheaper;
    if OnLedger(step) {
      Move(l, f.comments, step);
    } else if step.CashOutDue? {
      var _, _ := ProcessCashouts(l, f, step.posts, step.printRate);
    } else {
      SamePoolKeepsPrice(l.db, l.db);
      Discuss(f, step);
    }
  }

  /** After any run the recorded supplies equal the holdings, the order book is uncrossed, and the reward sums
      are exact. Between any two of the ledger's states in `states` the price of a vesting share has not fallen unless
      all shares were gone in between. Steps the chain would not get to evaluate are passed over. */
  method Run(l: Ledger, f: Forum, steps: seq<Step>) returns (ghost states: seq<State>)
    requires l.Valid() && f.Valid()
    modifies l, f
    ensures l.Valid() && f.Valid()
    ensures Conserved(l.db) && Uncrossed(l.db.orders) && l.db.rewardFund >= 0 && l.db.vestFund >= 0 && Counted(l.db)
    ensures l.db.steemSupply <= MAX_SUPPLY && l.db.sbdSupply <= MAX_SUPPLY ==> NothingCrosses(l.db.orders)
    ensures ForestOk(f.comments, f.total)
    ensures |states| == |steps| + 1 && states[0] == old(l.db) && states[|steps|] == l.db && PriceHolds(states)
  {
    hide Counted, Uncrossed, PriceKept, EachKeepsPrice, PriceHolds, ForestOk, Conserved;
    states := [l.db];
    Started(l.db);
    for i := 0 to |steps|
      invariant l.Valid() && f.Valid()
      invariant |states| == i + 1 && states[0] == old(l.db) && states[i] == l.db && EachKeepsPrice(states)
      invariant forall k :: 0 <= k < |states| ==> Backed(PoolOf(states[k]))
    {
      SamePoolKeepsPrice(l.db, l.db);
      if Admissible(l.db, f.comments, steps[i]) {
        Perform(l, f, steps[i]);
      }
      OneMoreKept(states, l.db);
      states := states + [l.db];
    }
    FundNotNegative(l);
    RunHoldsPrice(states);
    if l.db.steemSupply <= MAX_SUPPLY && l.db.sbdSupply <= MAX_SUPPLY {
      NothingCrossesBelowMax(l.db);
    }
  }

  lemma Started(s: State)
    requires InOrder(s)
    ensures EachKeepsPrice([s]) && Backed(PoolOf(s))
  {
  }

  /** So does any run that starts at the beginning. */
  method RunFromGenesis(names: set<Name>, miner: Name, supply: nat, env: Env, feed: Feed, steps: seq<Step>)
    returns (l: Ledger, f: Forum, ghost states: seq<State>)
    requires env.now >= 0 && FeedOk(feed)
    ensures Conserved(l.db) && Uncrossed(l.db.orders) && l.db.rewardFund >= 0 && l.db.vestFund >= 0 && Counted(l.db)
    ensures l.db.steemSupply <= MAX_SUPPLY && l.db.sbdSupply <= MAX_SUPPLY ==> NothingCrosses(l.db.orders)
    ensures ForestOk(f.comments, f.total)
    ensures |states| == |steps| + 1 && states[|steps|] == l.db && PriceHolds(states)
  {
    hide Counted, InOrder, Conserved, ForestOk, Uncrossed, Genesis, PriceHolds;
    l := new Ledger(names, miner, supply, env, feed);
    f := new Forum();
    states := Run(l, f, steps);
  }
}
