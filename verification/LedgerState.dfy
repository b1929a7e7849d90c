/** Everything that can hold tokens, on values: accounts with their interest clocks, resting orders,
    escrows, pending savings withdrawals and conversion requests. */
module LedgerState {
  import opened Common
  import opened Arith
  import opened MapSums
  import opened Market

  /** STEEMIT_SECONDS_PER_YEAR */
  const SECONDS_PER_YEAR: nat := 31_536_000

  /** STEEMIT_SBD_INTEREST_COMPOUND_INTERVAL_SEC */
  const COMPOUND_INTERVAL: nat := 2_592_000

  /** Balance-seconds accumulated, when last brought up to date, when interest was last paid. */
  datatype Clock = Clock(seconds: int, updated: int, paid: int)

  datatype Holder = Holder(
    steem: int,        // balance
    sbd: int,          // sbd_balance
    savings: int,      // savings_balance
    savingsSbd: int,   // savings_sbd_balance
    vests: int,        // vesting_shares
    sbdClock: Clock,
    savingsClock: Clock,
    requests: int)     // savings_withdraw_requests

  /** What interest depends on: head block time, yearly rate, and whether it is paid at all. */
  datatype Env = Env(now: int, rate: nat, feesOn: bool)

  // ----- interest -----

  function Ticked(balance: int, c: Clock, now: int): Clock {
    if c.updated == now then c else c.(seconds := c.seconds + balance * (now - c.updated), updated := now)
  }

  predicate InterestDue(balance: int, c: Clock, now: int) {
    c.updated != now && Ticked(balance, c, now).seconds > 0 && now - c.paid > COMPOUND_INTERVAL
  }

  function SbdInterest(h: Holder, env: Env): int {
    if env.feesOn && InterestDue(h.sbd, h.sbdClock, env.now)
    then Ticked(h.sbd, h.sbdClock, env.now).seconds * env.rate / (SECONDS_PER_YEAR * HUNDRED_PERCENT)
    else 0
  }

  /** Savings round twice: to whole balance-years, then by the rate. */
  function SavingsInterest(h: Holder, env: Env): int {
    if InterestDue(h.savingsSbd, h.savingsClock, env.now)
    then Ticked(h.savingsSbd, h.savingsClock, env.now).seconds / SECONDS_PER_YEAR * env.rate / HUNDRED_PERCENT
    else 0
  }

  function Settled(balance: int, c: Clock, now: int, paying: bool): Clock {
    if paying && InterestDue(balance, c, now) then Clock(0, now, now) else Ticked(balance, c, now)
  }

  /** adjust_balance: an SBD balance first receives the interest that has fallen due. */
  function Adjust(h: Holder, delta: int, inSteem: bool, env: Env): Holder {
    if inSteem then h.(steem := h.steem + delta)
    else h.(sbd := h.sbd + SbdInterest(h, env) + delta, sbdClock := Settled(h.sbd, h.sbdClock, env.now, env.feesOn))
  }

  /** adjust_savings_balance */
  function AdjustSaved(h: Holder, delta: int, inSteem: bool, env: Env): Holder {
    if inSteem then h.(savings := h.savings + delta)
    else h.(savingsSbd := h.savingsSbd + SavingsInterest(h, env) + delta,
            savingsClock := Settled(h.savingsSbd, h.savingsClock, env.now, true))
  }

  function Balance(h: Holder, inSteem: bool): int {
    if inSteem then h.steem else h.sbd
  }

  function Saved(h: Holder, inSteem: bool): int {
    if inSteem then h.savings else h.savingsSbd
  }

  predicate ClockOk(c: Clock, now: int) {
    c.seconds >= 0 && c.updated <= now
  }

  predicate HolderOk(h: Holder, now: int) {
    && h.steem >= 0 && h.sbd >= 0 && h.savings >= 0 && h.savingsSbd >= 0 && h.vests >= 0
    && ClockOk(h.sbdClock, now) && ClockOk(h.savingsClock, now)
  }

  lemma TickedOk(balance: int, c: Clock, now: int)
    requires balance >= 0 && ClockOk(c, now)
    ensures ClockOk(Ticked(balance, c, now), now)
  {
    assert balance * (now - c.updated) >= 0;
  }

  lemma InterestNonNegative(h: Holder, env: Env)
    requires HolderOk(h, env.now)
    ensures SbdInterest(h, env) >= 0 && SavingsInterest(h, env) >= 0
  {
    TickedOk(h.sbd, h.sbdClock, env.now);
    TickedOk(h.savingsSbd, h.savingsClock, env.now);
    ScaledNonNegative(Ticked(h.sbd, h.sbdClock, env.now).seconds, env.rate, SECONDS_PER_YEAR * HUNDRED_PERCENT);
    ScaledNonNegative(Ticked(h.savingsSbd, h.savingsClock, env.now).seconds / SECONDS_PER_YEAR, env.rate,
                      HUNDRED_PERCENT);
  }

  lemma ScaledNonNegative(x: int, y: int, d: int)
    requires x >= 0 && y >= 0 && d > 0
    ensures x * y / d >= 0
  {
    assert x * y >= 0;
  }

  /** An account that can afford the change stays in order. */
  lemma AdjustOk(h: Holder, delta: int, inSteem: bool, env: Env)
    requires HolderOk(h, env.now)
    ensures Balance(h, inSteem) + delta >= 0 ==> HolderOk(Adjust(h, delta, inSteem, env), env.now)
    ensures Saved(h, inSteem) + delta >= 0 ==> HolderOk(AdjustSaved(h, delta, inSteem, env), env.now)
  {
    InterestNonNegative(h, env);
    TickedOk(h.sbd, h.sbdClock, env.now);
    TickedOk(h.savingsSbd, h.savingsClock, env.now);
  }

  // ----- where tokens are held -----

  type Holders = map<Name, Holder>

  ghost predicate HoldersOk(holders: Holders, now: int) {
    forall a {:trigger HolderOk(holders[a], now)} :: a in holders ==> HolderOk(holders[a], now)
  }

  ghost function Liquid(holders: Holders): map<Name, int> {
    map a | a in holders :: holders[a].steem + holders[a].savings
  }

  ghost function Dollars(holders: Holders): map<Name, int> {
    map a | a in holders :: holders[a].sbd + holders[a].savingsSbd
  }

  ghost function Shares(holders: Holders): map<Name, int> {
    map a | a in holders :: holders[a].vests
  }

  lemma HolderChanged(holders: Holders, a: Name, h: Holder)
    requires a in holders
    ensures Sum(Liquid(holders[a := h])) ==
              Sum(Liquid(holders)) + h.steem + h.savings - holders[a].steem - holders[a].savings
    ensures Sum(Dollars(holders[a := h])) ==
              Sum(Dollars(holders)) + h.sbd + h.savingsSbd - holders[a].sbd - holders[a].savingsSbd
    ensures Sum(Shares(holders[a := h])) == Sum(Shares(holders)) + h.vests - holders[a].vests
  {
    LiquidChanged(holders, a, h);
    DollarsChanged(holders, a, h);
    SharesChanged(holders, a, h);
  }

  lemma LiquidChanged(holders: Holders, a: Name, h: Holder)
    requires a in holders
    ensures Sum(Liquid(holders[a := h])) ==
              Sum(Liquid(holders)) + h.steem + h.savings - holders[a].steem - holders[a].savings
  {
    SumUpdate(Liquid(holders), a, h.steem + h.savings);
    assert Liquid(holders[a := h]) == Liquid(holders)[a := h.steem + h.savings];
  }

  lemma DollarsChanged(holders: Holders, a: Name, h: Holder)
    requires a in holders
    ensures Sum(Dollars(holders[a := h])) ==
              Sum(Dollars(holders)) + h.sbd + h.savingsSbd - holders[a].sbd - holders[a].savingsSbd
  {
    SumUpdate(Dollars(holders), a, h.sbd + h.savingsSbd);
    assert Dollars(holders[a := h]) == Dollars(holders)[a := h.sbd + h.savingsSbd];
  }

  lemma SharesChanged(holders: Holders, a: Name, h: Holder)
    requires a in holders
    ensures Sum(Shares(holders[a := h])) == Sum(Shares(holders)) + h.vests - holders[a].vests
  {
    SumUpdate(Shares(holders), a, h.vests);
    assert Shares(holders[a := h]) == Shares(holders)[a := h.vests];
  }

  ghost function SellingSteem(book: Book): map<nat, int> {
    map i | i in book :: if book[i].sellsSteem then book[i].forSale else 0
  }

  ghost function SellingSbd(book: Book): map<nat, int> {
    map i | i in book :: if book[i].sellsSteem then 0 else book[i].forSale
  }

  lemma OrderPut(book: Book, i: nat, o: Order)
    ensures Sum(SellingSteem(book[i := o])) == Sum(SellingSteem(book))
              + (if o.sellsSteem then o.forSale else 0) -
                  (if i in book && book[i].sellsSteem then book[i].forSale else 0)
    ensures Sum(SellingSbd(book[i := o])) == Sum(SellingSbd(book))
              + (if o.sellsSteem then 0 else o.forSale) -
                  (if i in book && !book[i].sellsSteem then book[i].forSale else 0)
  {
    SumUpdate(SellingSteem(book), i, if o.sellsSteem then o.forSale else 0);
    assert SellingSteem(book[i := o]) == SellingSteem(book)[i := if o.sellsSteem then o.forSale else 0];
    SumUpdate(SellingSbd(book), i, if o.sellsSteem then 0 else o.forSale);
    assert SellingSbd(book[i := o]) == SellingSbd(book)[i := if o.sellsSteem then 0 else o.forSale];
  }

  lemma OrderGone(book: Book, i: nat)
    requires i in book
    ensures Sum(SellingSteem(book - {i})) ==
              Sum(SellingSteem(book)) - (if book[i].sellsSteem then book[i].forSale else 0)
    ensures Sum(SellingSbd(book - {i})) == Sum(SellingSbd(book)) - (if book[i].sellsSteem then 0 else book[i].forSale)
  {
    SumRemove(SellingSteem(book), i);
    assert SellingSteem(book - {i}) == SellingSteem(book) - {i};
    SumRemove(SellingSbd(book), i);
    assert SellingSbd(book - {i}) == SellingSbd(book) - {i};
  }

  type Key = (Name, nat)

  datatype Escrow = Escrow(
    to: Name, agent: Name,
    ratification: int, expiration: int,
    steem: int, sbd: int,
    fee: int, feeInSteem: bool,    // pending_fee
    toApproved: bool, agentApproved: bool, disputed: bool)

  type Escrows = map<Key, Escrow>

  /** A ratified escrow has paid its fee, so nothing is lost when it is emptied and removed. */
  predicate EscrowOk(e: Escrow) {
    && e.steem >= 0 && e.sbd >= 0 && e.fee >= 0
    && (e.toApproved && e.agentApproved ==> e.fee == 0)
  }

  ghost predicate EscrowsOk(escrows: Escrows, names: set<Name>) {
    forall k {:trigger EscrowOk(escrows[k])} :: k in escrows ==>
      EscrowOk(escrows[k]) && k.0 in names && escrows[k].to in names && escrows[k].agent in names
  }

  function SteemIn(e: Escrow): int {
    e.steem + if e.feeInSteem then e.fee else 0
  }

  function SbdIn(e: Escrow): int {
    e.sbd + if e.feeInSteem then 0 else e.fee
  }

  ghost function EscrowedSteem(escrows: Escrows): map<Key, int> {
    map k | k in escrows :: SteemIn(escrows[k])
  }

  ghost function EscrowedSbd(escrows: Escrows): map<Key, int> {
    map k | k in escrows :: SbdIn(escrows[k])
  }

  lemma EscrowPut(escrows: Escrows, k: Key, e: Escrow)
    ensures Sum(EscrowedSteem(escrows[k := e])) == Sum(EscrowedSteem(escrows)) + SteemIn(e)
              - (if k in escrows then SteemIn(escrows[k]) else 0)
    ensures Sum(EscrowedSbd(escrows[k := e])) == Sum(EscrowedSbd(escrows)) + SbdIn(e)
              - (if k in escrows then SbdIn(escrows[k]) else 0)
  {
    SumUpdate(EscrowedSteem(escrows), k, SteemIn(e));
    assert EscrowedSteem(escrows[k := e]) == EscrowedSteem(escrows)[k := SteemIn(e)];
    SumUpdate(EscrowedSbd(escrows), k, SbdIn(e));
    assert EscrowedSbd(escrows[k := e]) == EscrowedSbd(escrows)[k := SbdIn(e)];
  }

  lemma EscrowGone(escrows: Escrows, k: Key)
    requires k in escrows
    ensures Sum(EscrowedSteem(escrows - {k})) == Sum(EscrowedSteem(escrows)) - SteemIn(escrows[k])
    ensures Sum(EscrowedSbd(escrows - {k})) == Sum(EscrowedSbd(escrows)) - SbdIn(escrows[k])
  {
    SumRemove(EscrowedSteem(escrows), k);
    assert EscrowedSteem(escrows - {k}) == EscrowedSteem(escrows) - {k};
    SumRemove(EscrowedSbd(escrows), k);
    assert EscrowedSbd(escrows - {k}) == EscrowedSbd(escrows) - {k};
  }

  /** An amount in one of the two assets that leaves savings at `due`, or a conversion request
      (always SBD) that is converted at `due`. */
  datatype Pending = Pending(to: Name, amount: int, inSteem: bool, due: int)

  type Pendings = map<Key, Pending>

  predicate PendingOk(k: Key, p: Pending, names: set<Name>) {
    p.amount > 0 && k.0 in names && p.to in names
  }

  ghost predicate PendingsOk(pendings: Pendings, names: set<Name>) {
    forall k {:trigger PendingOk(k, pendings[k], names)} :: k in pendings ==> PendingOk(k, pendings[k], names)
  }

  ghost predicate AllInSbd(pendings: Pendings) {
    forall k {:trigger pendings[k]} :: k in pendings ==> !pendings[k].inSteem
  }

  ghost predicate BookOk(book: Book, names: set<Name>, next: nat) {
    forall i {:trigger Sound(book[i])} :: i in book ==> Sound(book[i]) && book[i].seller in names && i < next
  }

  ghost function PendingSteem(pendings: Pendings): map<Key, int> {
    map k | k in pendings :: if pendings[k].inSteem then pendings[k].amount else 0
  }

  ghost function PendingSbd(pendings: Pendings): map<Key, int> {
    map k | k in pendings :: if pendings[k].inSteem then 0 else pendings[k].amount
  }

  lemma PendingPut(pendings: Pendings, k: Key, p: Pending)
    requires k !in pendings
    ensures Sum(PendingSteem(pendings[k := p])) == Sum(PendingSteem(pendings)) + (if p.inSteem then p.amount else 0)
    ensures Sum(PendingSbd(pendings[k := p])) == Sum(PendingSbd(pendings)) + (if p.inSteem then 0 else p.amount)
  {
    SumUpdate(PendingSteem(pendings), k, if p.inSteem then p.amount else 0);
    assert PendingSteem(pendings[k := p]) == PendingSteem(pendings)[k := if p.inSteem then p.amount else 0];
    SumUpdate(PendingSbd(pendings), k, if p.inSteem then 0 else p.amount);
    assert PendingSbd(pendings[k := p]) == PendingSbd(pendings)[k := if p.inSteem then 0 else p.amount];
  }

  lemma PendingGone(pendings: Pendings, k: Key)
    requires k in pendings
    ensures Sum(PendingSteem(pendings - {k})) ==
              Sum(PendingSteem(pendings)) - (if pendings[k].inSteem then pendings[k].amount else 0)
    ensures Sum(PendingSbd(pendings - {k})) ==
              Sum(PendingSbd(pendings)) - (if pendings[k].inSteem then 0 else pendings[k].amount)
  {
    SumRemove(PendingSteem(pendings), k);
    assert PendingSteem(pendings - {k}) == PendingSteem(pendings) - {k};
    SumRemove(PendingSbd(pendings), k);
    assert PendingSbd(pendings - {k}) == PendingSbd(pendings) - {k};
  }

  // ----- records stay in order -----

  lemma HolderChangedOk(holders: Holders, now: int, a: Name, h: Holder)
    requires HoldersOk(holders, now) && a in holders && HolderOk(h, now)
    ensures HoldersOk(holders[a := h], now) && holders[a := h].Keys == holders.Keys
  {
  }

  lemma PendingPutOk(pendings: Pendings, names: set<Name>, k: Key, p: Pending)
    requires PendingsOk(pendings, names) && p.amount > 0 && k.0 in names && p.to in names
    ensures PendingsOk(pendings[k := p], names)
    ensures AllInSbd(pendings) && !p.inSteem ==> AllInSbd(pendings[k := p])
  {
  }

  lemma PendingGoneOk(pendings: Pendings, names: set<Name>, k: Key)
    requires PendingsOk(pendings, names) && k in pendings
    ensures PendingsOk(pendings - {k}, names)
    ensures AllInSbd(pendings) ==> AllInSbd(pendings - {k}) && !pendings[k].inSteem
  {
    forall j | j in pendings - {k} ensures PendingOk(j, (pendings - {k})[j], names) {
      assert PendingOk(j, pendings[j], names);
    }
  }

  lemma EscrowPutOk(escrows: Escrows, names: set<Name>, k: Key, e: Escrow)
    requires EscrowsOk(escrows, names) && EscrowOk(e) && k.0 in names && e.to in names && e.agent in names
    ensures EscrowsOk(escrows[k := e], names)
  {
    forall j | j in escrows && j != k
      ensures EscrowOk(escrows[j]) && j.0 in names && escrows[j].to in names && escrows[j].agent in names
    {
    }
  }

  lemma EscrowGoneOk(escrows: Escrows, names: set<Name>, k: Key)
    requires EscrowsOk(escrows, names)
    ensures EscrowsOk(escrows - {k}, names)
  {
    forall j | j in escrows - {k} ensures EscrowOk((escrows - {k})[j]) {
      assert EscrowOk(escrows[j]);
    }
  }

  lemma OrderPutOk(book: Book, names: set<Name>, next: nat, i: nat, o: Order)
    requires BookOk(book, names, next) && Sound(o) && o.seller in names && i < next
    ensures BookOk(book[i := o], names, next)
  {
    forall j | j in book && j != i ensures Sound(book[j]) && book[j].seller in names && j < next {
    }
  }

  lemma OrderGoneOk(book: Book, names: set<Name>, next: nat, i: nat)
    requires BookOk(book, names, next)
    ensures BookOk(book - {i}, names, next)
  {
    forall j | j in book - {i} ensures Sound((book - {i})[j]) {
      assert Sound(book[j]);
    }
  }

  // ----- prices -----

  /** The median feed: `sbd` dollars are worth `steem` tokens. */
  datatype Feed = NoFeed | Feed(sbd: int, steem: int)

  predicate FeedOk(f: Feed) {
    f.Feed? ==> f.sbd > 0 && f.steem > 0
  }

  /** Vesting share price: all shares against the whole vesting fund, or 1000 shares a token at the start. */
  function SharesFor(steem: int, totalVests: int, vestFund: int): int
    requires vestFund >= 0
  {
    if totalVests == 0 || vestFund == 0 then Convert(steem, 1_000_000, 1_000) else Convert(steem, totalVests, vestFund)
  }

  function SteemFor(vests: int, totalVests: int, vestFund: int): int
    requires totalVests >= 0
  {
    if totalVests == 0 || vestFund == 0 then Convert(vests, 1_000, 1_000_000) else Convert(vests, vestFund, totalVests)
  }

  /** Cashing out part of the shares never takes more than the fund, and leaves the rest backed. */
  lemma CashOutWithinFund(v: int, totalVests: int, vestFund: int)
    requires 0 <= v <= totalVests && vestFund >= 0 && (totalVests > 0 ==> vestFund > 0)
    ensures 0 <= SteemFor(v, totalVests, vestFund) <= vestFund
    ensures v < totalVests ==> SteemFor(v, totalVests, vestFund) < vestFund
  {
    if totalVests > 0 {
      var got := SteemFor(v, totalVests, vestFund);
      FloorBounds(v * vestFund, totalVests);
      FloorAtLeast(v * vestFund, totalVests, 0);
      MulMono(v, totalVests, vestFund);
      assert totalVests * got <= vestFund * totalVests;
      Cancel(got, vestFund, totalVests);
      assert (v + 1) * vestFund == v * vestFund + vestFund;
      if v < totalVests && got >= vestFund {
        MulMono(v + 1, totalVests, vestFund);
        MulMono(vestFund, got, totalVests);
        assert false;
      }
    }
  }

  lemma NewSharesNonNegative(steem: int, totalVests: int, vestFund: int)
    requires steem >= 0 && totalVests >= 0 && vestFund >= 0
    ensures SharesFor(steem, totalVests, vestFund) >= 0
  {
    if totalVests > 0 && vestFund > 0 {
      FloorAtLeast(steem * totalVests, vestFund, 0);
    }
  }

  // ----- the whole ledger -----

  /** The part of the database that holds tokens. */
  datatype State = State(
    holders: Holders,
    orders: Book,
    nextOrder: nat,
    escrows: Escrows,
    withdrawals: Pendings,
    conversions: Pendings,
    steemSupply: int,     // current_supply
    sbdSupply: int,       // current_sbd_supply
    totalVests: int,      // total_vesting_shares
    vestFund: int,        // total_vesting_fund_steem
    rewardFund: int,      // total_reward_fund_steem
    feed: Feed,
    env: Env)

  /** What the recorded supply exceeds the holdings by. */
  ghost function SteemGap(s: State): int {
    s.steemSupply - Sum(Liquid(s.holders)) - Sum(SellingSteem(s.orders)) - Sum(EscrowedSteem(s.escrows))
      - Sum(PendingSteem(s.withdrawals)) - s.vestFund - s.rewardFund
  }

  ghost function SbdGap(s: State): int {
    s.sbdSupply - Sum(Dollars(s.holders)) - Sum(SellingSbd(s.orders)) - Sum(EscrowedSbd(s.escrows))
      - Sum(PendingSbd(s.withdrawals)) - Sum(PendingSbd(s.conversions))
  }

  ghost function VestGap(s: State): int {
    s.totalVests - Sum(Shares(s.holders))
  }

  /** No supply is created, lost or counted twice. */
  ghost predicate Conserved(s: State) {
    SteemGap(s) == 0 && SbdGap(s) == 0 && VestGap(s) == 0
  }

  /** The three gaps have changed by these amounts. */
  ghost predicate GapsMoved(s: State, r: State, steem: int, sbd: int, vests: int) {
    SteemGap(r) == SteemGap(s) + steem && SbdGap(r) == SbdGap(s) + sbd && VestGap(r) == VestGap(s) + vests
  }

  /** Nothing is overdrawn, every record is in order, and shares are backed by the fund. */
  ghost predicate InOrder(s: State) {
    && HoldersOk(s.holders, s.env.now) && BookOk(s.orders, s.holders.Keys, s.nextOrder)
    && EscrowsOk(s.escrows, s.holders.Keys)
    && PendingsOk(s.withdrawals, s.holders.Keys) && PendingsOk(s.conversions, s.holders.Keys) && AllInSbd(s.conversions)
    && FeedOk(s.feed) && FundsOk(s)
  }

  predicate FundsOk(s: State) {
    s.vestFund >= 0 && s.rewardFund >= 0 && s.totalVests >= 0 && (s.totalVests > 0 ==> s.vestFund > 0)
  }
}
