/** What a new order goes through until it is used up or nothing crosses it: the best resting order first, and its own
    price in the end. */
module Trades {
  import opened Arith
  import opened Common
  import opened Market
  import opened LedgerState
  import opened LedgerSteps

  /** The best resting order for `n`: best-priced, then oldest; nothing if none crosses below price::max. */
  ghost predicate IsBest(book: Book, n: nat, best: Option<nat>) {
    n in book &&
    match best
    case None => forall i :: i in book ==> !Scanned(book[n], book[i])
    case Some(o) =>
      && o in book && Scanned(book[n], book[o])
      && forall i :: i in book && Scanned(book[n], book[i]) ==> Precedes(book, o, i)
  }

  /** One match with the best. */
  ghost predicate TradeAt(s: State, r: State, n: nat, o: nat) {
    InOrder(s) && IsBest(s.orders, n, Some(o)) && r == Matched(s, n, o)
  }

  /** The matches of order `n` with `resting`, one after the other. */
  ghost predicate Traded(states: seq<State>, n: nat, resting: seq<nat>) {
    && |states| == |resting| + 1
    && forall i {:trigger resting[i]} :: 0 <= i < |resting| ==> TradeAt(states[i], states[i + 1], n, resting[i])
  }

  lemma TradedBest(s: State, n: nat, o: nat)
    requires InOrder(s) && IsBest(s.orders, n, Some(o))
    ensures TradeAt(s, Matched(s, n, o), n, o)
  {
  }

  lemma TradedMore(states: seq<State>, n: nat, resting: seq<nat>, r: State, o: nat)
    requires Traded(states, n, resting) && TradeAt(states[|resting|], r, n, o)
    ensures Traded(states + [r], n, resting + [o])
  {
    hide TradeAt;
    var more := states + [r];
    forall i | 0 <= i < |resting| + 1 ensures TradeAt(more[i], more[i + 1], n, (resting + [o])[i]) {
      if i < |resting| {
        assert resting[i] == resting[i];
      }
    }
  }

  // ----- one match -----

  /** The resting order is used up: the new one gets its price exactly. */
  lemma NothingLost(n: Order, o: Order)
    requires Sound(n) && Sound(o) && Crosses(n, o) && Match(n, o).newPays < n.forSale
    ensures var t := Match(n, o);
            t.newPays * n.quote <= t.oldPays * n.base
  {
    var t := Match(n, o);
    FloorBounds(o.forSale * o.quote, o.base);
    ExactPrice(t.newPays, t.oldPays, n.quote, n.base, o.quote, o.base);
  }

  lemma ExactPrice(paid: int, got: int, nq: int, nb: int, oq: int, ob: int)
    requires 0 <= paid && nq > 0 && nb > 0 && oq > 0 && ob > 0 && nq * oq <= ob * nb && paid * ob <= got * oq
    ensures paid * nq <= got * nb
  {
    MulMono(nq * oq, ob * nb, paid);
    MulMono(paid * ob, got * oq, nb);
    assert (paid * nq) * oq == nq * oq * paid && ob * nb * paid == paid * ob * nb && got * oq * nb == (got * nb) * oq;
    Cancel(paid * nq, got * nb, oq);
  }

  /** Otherwise less than one unit is lost. */
  lemma LessThanOneLost(n: Order, o: Order)
    requires Sound(n) && Sound(o) && Crosses(n, o)
    ensures var t := Match(n, o);
            t.newPays * n.quote < (t.oldPays + 1) * n.base
  {
    MatchIsFair(n, o);
    CrossingPrices(n, o);
    hide Match, Crosses, ToReceive;
    var t := Match(n, o);
    if t.newPays < n.forSale {
      NothingLost(n, o);
      OneMore(t.oldPays, n.base);
    } else {
      WholeOrderPays(n, o);
      BelowPrice(t.newPays, t.oldPays, n.quote, n.base, o.quote, o.base);
    }
  }

  lemma OneMore(x: int, y: int)
    ensures (x + 1) * y == x * y + y
  {
  }

  lemma CrossingPrices(n: Order, o: Order)
    requires Crosses(n, o)
    ensures n.quote * o.quote <= o.base * n.base
  {
  }

  lemma WholeOrderPays(n: Order, o: Order)
    requires Sound(n) && Sound(o) && Crosses(n, o) && Match(n, o).newPays == n.forSale
    ensures var t := Match(n, o);
            t.newPays * o.base < (t.oldPays + 1) * o.quote
  {
    var t := Match(n, o);
    FloorBounds(n.forSale * o.base, o.quote);
    assert t.oldPays == Convert(n.forSale, o.base, o.quote);
    OneMore(t.oldPays, o.quote);
  }

  lemma BelowPrice(paid: int, got: int, nq: int, nb: int, oq: int, ob: int)
    requires 0 <= paid && nq > 0 && nb > 0 && oq > 0 && ob > 0 && nq * oq <= ob * nb && paid * ob < (got + 1) * oq
    ensures paid * nq < (got + 1) * nb
  {
    var x, y := paid * nq, (got + 1) * nb;
    MulMono(nq * oq, ob * nb, paid);
    assert x * oq == nq * oq * paid && ob * nb * paid == paid * ob * nb;
    MulMono(paid * ob + 1, (got + 1) * oq, nb);
    OneMore(paid * ob, nb);
    assert y * oq == (got + 1) * oq * nb;
    Below(x, y, oq);
  }

  lemma Below(x: int, y: int, z: int)
    requires z > 0 && x * z < y * z
    ensures x < y
  {
    if y <= x {
      MulMono(y, x, z);
    }
  }

  // ----- all of them -----

  /** What the order pays and what it gets in the first k matches. */
  ghost function Spent(states: seq<State>, n: nat, resting: seq<nat>, k: nat): int
    requires Traded(states, n, resting) && k <= |resting|
  {
    if k == 0 then 0 else Spent(states, n, resting, k - 1) + TradeOf(states, n, resting, k - 1).newPays
  }

  ghost function Bought(states: seq<State>, n: nat, resting: seq<nat>, k: nat): int
    requires Traded(states, n, resting) && k <= |resting|
  {
    if k == 0 then 0 else Bought(states, n, resting, k - 1) + TradeOf(states, n, resting, k - 1).oldPays
  }

  ghost function TradeOf(states: seq<State>, n: nat, resting: seq<nat>, i: nat): Trade
    requires Traded(states, n, resting) && i < |resting|
  {
    var s, o := states[i], resting[i];
    assert Sound(s.orders[o]);
    Match(s.orders[n], s.orders[o])
  }

  /** Over all matches together the order gets at least its own price, rounded down once. */
  lemma TakerGetsPrice(states: seq<State>, n: nat, resting: seq<nat>)
    requires Traded(states, n, resting) && resting != []
    ensures n in states[0].orders && states[0].orders[n].base > 0
    ensures var o, k := states[0].orders[n], |resting|;
            Bought(states, n, resting, k) >= Convert(Spent(states, n, resting, k), o.quote, o.base)
  {
    hide TradeAt, Matched;
    var k := |resting|;
    FirstSound(states, n, resting);
    var o := states[0].orders[n];
    AlmostExact(states, n, resting, k);
    var spent, bought := Spent(states, n, resting, k), Bought(states, n, resting, k);
    AtLeastFloor(spent * o.quote, bought, o.base);
  }

  lemma AtLeastFloor(x: int, r: int, d: int)
    requires d > 0 && x < (r + 1) * d
    ensures r >= x / d
  {
    FloorAtLeast(x, d, r + 1);
  }

  lemma FirstSound(states: seq<State>, n: nat, resting: seq<nat>)
    requires Traded(states, n, resting) && resting != []
    ensures n in states[0].orders && Sound(states[0].orders[n])
  {
    assert TradeAt(states[0], states[1], n, resting[0]);
    BothSound(states[0], n, resting[0]);
  }

  /** Only the last match can lose anything to rounding: after every other one the order is still there. */
  lemma {:induction false} AlmostExact(states: seq<State>, n: nat, resting: seq<nat>, k: nat)
    requires Traded(states, n, resting) && 0 < k <= |resting|
    ensures n in states[0].orders
    ensures var o := states[0].orders[n];
            && Spent(states, n, resting, k) * o.quote < (Bought(states, n, resting, k) + 1) * o.base
            && (k < |resting| ==> Spent(states, n, resting, k) * o.quote <= Bought(states, n, resting, k) * o.base)
  {
    hide TradeAt, Matched, Match;
    FirstSound(states, n, resting);
    var o, t := states[0].orders[n], TradeOf(states, n, resting, k - 1);
    var spent, bought := Spent(states, n, resting, k - 1), Bought(states, n, resting, k - 1);
    if k > 1 {
      AlmostExact(states, n, resting, k - 1);
    }
    OneTrade(states, n, resting, k - 1);
    AddProducts(spent, t.newPays, o.quote);
    AddProducts(bought, t.oldPays, o.base);
    OneMore(t.oldPays, o.base);
    OneMore(bought + t.oldPays, o.base);
  }

  lemma AddProducts(x: int, y: int, z: int)
    ensures (x + y) * z == x * z + y * z
  {
  }

  lemma OneTrade(states: seq<State>, n: nat, resting: seq<nat>, i: nat)
    requires Traded(states, n, resting) && i < |resting| && n in states[0].orders
    ensures var o, t := states[0].orders[n], TradeOf(states, n, resting, i);
            && t.newPays * o.quote < (t.oldPays + 1) * o.base
            && (i + 1 < |resting| ==> t.newPays * o.quote <= t.oldPays * o.base)
  {
    hide Matched, Match;
    SamePrice(states, n, resting, i);
    var s := states[i];
    assert TradeAt(s, states[i + 1], n, resting[i]);
    BothSound(s, n, resting[i]);
    LessThanOneLost(s.orders[n], s.orders[resting[i]]);
    if i + 1 < |resting| {
      StillThere(states, n, resting, i);
      NothingLost(s.orders[n], s.orders[resting[i]]);
    }
  }

  /** An order that is matched again was not used up. */
  lemma StillThere(states: seq<State>, n: nat, resting: seq<nat>, i: nat)
    requires Traded(states, n, resting) && i + 1 < |resting|
    ensures TradeOf(states, n, resting, i).newPays < states[i].orders[n].forSale
  {
    hide InOrder, OrderFilled;
    var s, o := states[i], resting[i];
    assert TradeAt(s, states[i + 1], n, o) && TradeAt(states[i + 1], states[i + 2], n, resting[i + 1]);
    BothSound(s, n, o);
    MatchIsFair(s.orders[n], s.orders[o]);
    UsedUpIsGone(s, n, o);
  }

  lemma UsedUpIsGone(s: State, n: nat, o: nat)
    requires InOrder(s) && n in s.orders && o in s.orders && Crosses(s.orders[n], s.orders[o])
    ensures s.orders[o].base > 0 && s.orders[o].quote > 0
    ensures Match(s.orders[n], s.orders[o]).newPays == s.orders[n].forSale ==> n !in Matched(s, n, o).orders
  {
    hide InOrder, OrderFilled, GapsMoved, Match, ToReceive, Convert, PriceAtLeast;
    BothSound(s, n, o);
    MatchIsFair(s.orders[n], s.orders[o]);
    var t := Match(s.orders[n], s.orders[o]);
    OrderFilledKeeps(s, n, t.newPays, t.oldPays);
    var s1 := OrderFilled(s, n, t.newPays, t.oldPays);
    OrderFilledKeeps(s1, o, t.oldPays, t.newPays);
  }

  /** Prices do not change on the way. */
  lemma {:induction false} SamePrice(states: seq<State>, n: nat, resting: seq<nat>, i: nat)
    requires Traded(states, n, resting) && i <= |resting| && n in states[0].orders
    ensures Shrunk(states[0].orders, states[i].orders)
  {
    hide Matched, InOrder, GapsMoved, Shrunk, Precedes;
    if i == 0 {
      ShrunkTwice(states[0].orders, states[0].orders, states[0].orders);
    } else {
      SamePrice(states, n, resting, i - 1);
      assert TradeAt(states[i - 1], states[i], n, resting[i - 1]);
      MatchedKeeps(states[i - 1], n, resting[i - 1]);
      ShrunkTwice(states[0].orders, states[i - 1].orders, states[i].orders);
    }
  }

  lemma ShrunkTwice(a: Book, b: Book, c: Book)
    ensures Shrunk(a, a)
    ensures Shrunk(a, b) && Shrunk(b, c) ==> Shrunk(a, c)
  {
  }

  /** Each match is made at the price of the resting order, not at the new order's own: all but the last resting order
      are used up, for what they are worth at their price, rounded down to the new order's favour. */
  lemma RestingPriceDecides(states: seq<State>, n: nat, resting: seq<nat>, i: nat)
    requires Traded(states, n, resting) && i < |resting|
    ensures var s, t := states[i], TradeOf(states, n, resting, i);
            var o := s.orders[resting[i]];
            if t.newPays == s.orders[n].forSale
            then t.oldPays * o.quote <= t.newPays * o.base < (t.oldPays + 1) * o.quote
            else t.oldPays == o.forSale && t.newPays * o.base <= t.oldPays * o.quote < (t.newPays + 1) * o.base
    ensures i + 1 < |resting| ==> TradeOf(states, n, resting, i).newPays < states[i].orders[n].forSale
  {
    hide Matched, Match;
    var s, o := states[i], resting[i];
    assert TradeAt(s, states[i + 1], n, o);
    BothSound(s, n, o);
    AtRestingPrice(s.orders[n], s.orders[o]);
    if i + 1 < |resting| {
      StillThere(states, n, resting, i);
    }
  }

  /** Every resting order gets at least its own price, rounded down. */
  lemma MakerGetsPrice(states: seq<State>, n: nat, resting: seq<nat>, i: nat)
    requires Traded(states, n, resting) && i < |resting|
    ensures var o, t := states[i].orders[resting[i]], TradeOf(states, n, resting, i);
            0 < t.oldPays <= o.forSale && o.base > 0 && t.newPays >= Convert(t.oldPays, o.quote, o.base)
  {
    hide Matched;
    var s, o := states[i], resting[i];
    assert TradeAt(s, states[i + 1], n, o);
    BothSound(s, n, o);
    MatchIsFair(s.orders[n], s.orders[o]);
  }

  /** Better-priced, then older resting orders are met first. */
  lemma BestFirst(states: seq<State>, n: nat, resting: seq<nat>, i: nat, j: nat)
    requires Traded(states, n, resting) && i < j < |resting|
    ensures var book := states[0].orders;
            resting[i] in book && resting[j] in book && Precedes(book, resting[i], resting[j])
  {
    hide Matched;
    assert TradeAt(states[0], states[1], n, resting[0]);
    assert TradeAt(states[i], states[i + 1], n, resting[i]) && TradeAt(states[j], states[j + 1], n, resting[j]);
    SamePrice(states, n, resting, i);
    SamePrice(states, n, resting, j);
    SamePrice(states[i..], n, resting[i..], j - i);
  }
}
