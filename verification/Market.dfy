/** The GOLOS:GBG order book, on values: price comparison by cross-multiplication, amounts
    rounded down, and what one match does to the two orders it meets. */
module Market {
  import opened Common
  import opened Arith

  /** STEEMIT_MAX_SHARE_SUPPLY */
  const MAX_SUPPLY: int := 1_000_000_000_000_000

  const INT64_LIMIT: int := 0x8000_0000_0000_0000

  /** A resting order sells one of the two assets; its sell_price is base / quote,
      with `base` counted in the asset it sells. */
  datatype Order = Order(
    seller: Name,
    orderId: nat,
    forSale: int,
    base: int,
    quote: int,
    sellsSteem: bool,
    expiration: nat)

  /** asset * price, rounded down. */
  function Convert(amount: int, num: int, den: int): int
    requires den > 0
  {
    amount * num / den
  }

  /** amount_to_receive */
  function ToReceive(o: Order): int
    requires o.base > 0
  {
    Convert(o.forSale, o.quote, o.base)
  }

  /** Something is for sale, and it still buys something, within the range of the amounts. */
  predicate Sound(o: Order) {
    && 0 < o.forSale < INT64_LIMIT && o.base > 0 && o.quote > 0
    && 0 < ToReceive(o) < INT64_LIMIT
  }

  /** operator>= on prices with equal symbols: p1 / q1 >= p2 / q2. */
  predicate PriceAtLeast(p1: int, q1: int, p2: int, q2: int) {
    q2 * p1 >= q1 * p2
  }

  /** The resting order `o` offers at least what the opposite order `n` demands: o >= ~n. */
  predicate Crosses(n: Order, o: Order) {
    n.sellsSteem != o.sellsSteem && PriceAtLeast(o.base, o.quote, n.quote, n.base)
  }

  /** Receiving `receives` for paying `pays` meets the limit price of the order. */
  predicate Accepts(o: Order, pays: int, receives: int) {
    receives * o.base >= pays * o.quote
  }

  /** Two opposite orders cross exactly when some exchange suits both. */
  lemma CrossingIsAgreement(n: Order, o: Order)
    requires n.base > 0 && n.quote > 0 && o.base > 0 && o.quote > 0 && n.sellsSteem != o.sellsSteem
    ensures Crosses(n, o) <==> exists x, y :: x > 0 && y > 0 && Accepts(n, x, y) && Accepts(o, y, x)
  {
    if Crosses(n, o) {
      assert Accepts(n, o.quote, o.base) && Accepts(o, o.base, o.quote);
    }
    forall x, y | x > 0 && y > 0 && Accepts(n, x, y) && Accepts(o, y, x) ensures Crosses(n, o) {
      BothSuited(n, o, x, y);
    }
  }

  lemma BothSuited(n: Order, o: Order, x: int, y: int)
    requires n.base > 0 && n.quote > 0 && o.base > 0 && o.quote > 0 && n.sellsSteem != o.sellsSteem
    requires x > 0 && y > 0 && Accepts(n, x, y) && Accepts(o, y, x)
    ensures Crosses(n, o)
  {
    MulMono(x * n.quote, y * n.base, o.quote);
    MulMono(y * o.quote, x * o.base, n.base);
    assert x * n.quote * o.quote == n.quote * o.quote * x && y * n.base * o.quote == y * o.quote * n.base;
    assert x * o.base * n.base == o.base * n.base * x;
    Cancel(n.quote * o.quote, o.base * n.base, x);
  }

  lemma CrossingIsSymmetric(n: Order, o: Order)
    ensures Crosses(n, o) == Crosses(o, n)
  {
    assert n.base * o.base == o.base * n.base && n.quote * o.quote == o.quote * n.quote;
  }

  /** price::max, the upper end of the range that apply_order scans. */
  predicate BelowMax(o: Order) {
    PriceAtLeast(MAX_SUPPLY, 1, o.base, o.quote)
  }

  /** A sound order that the maximum supply could back is inside the range scanned. */
  lemma SoundIsBelowMax(o: Order)
    requires Sound(o) && o.forSale <= MAX_SUPPLY
    ensures BelowMax(o)
  {
    FloorAtLeast(o.forSale * o.quote, o.base, 1);
    MulMono(o.forSale, MAX_SUPPLY, o.quote);
  }

  // ----- one match -----

  datatype Trade = Trade(newPays: int, oldPays: int)

  /** match: the resting order's price decides; whoever has less is filled. */
  function Match(n: Order, o: Order): Trade
    requires o.base > 0 && o.quote > 0
  {
    var oldWants := Convert(o.forSale, o.quote, o.base);
    if n.forSale <= oldWants
    then Trade(n.forSale, Convert(n.forSale, o.base, o.quote))
    else Trade(oldWants, o.forSale)
  }

  /** a / b at a better price c / d: floor(x * a / b) <= floor(x * c / d). */
  lemma BetterPriceBuysMore(x: int, a: int, b: int, c: int, d: int)
    requires x >= 0 && a > 0 && b > 0 && c > 0 && d > 0
    requires a * d <= c * b
    ensures Convert(x, a, b) <= Convert(x, c, d)
  {
    var k := x * a / b;
    FloorAtLeast(x * a, b, k);
    // k * b <= x * a, hence k * b * d <= x * a * d <= x * c * b, hence k * d <= x * c
    MulMono(k * b, x * a, d);
    MulMono(a * d, c * b, x);
    assert k * b * d == (k * d) * b;
    assert x * a * d == a * d * x && c * b * x == (x * c) * b;
    assert (k * d) * b <= (x * c) * b;
    Cancel(k * d, x * c, b);
    FloorAtLeast(x * c, d, k);
  }

  /** Converting there and back never gains. */
  lemma RoundTripLoses(x: int, a: int, b: int)
    requires x >= 0 && a > 0 && b > 0
    ensures Convert(Convert(x, a, b), b, a) <= x
  {
    var k := x * a / b;
    FloorAtLeast(x * a, b, k);
    FloorBounds(k * b, a);
    var j := k * b / a;
    assert a * j <= x * a;
    assert j * a <= x * a;
    Cancel(j, x, a);
  }

  /** Both sides pay something and no more than they have, one of them is filled, and each receives
      at least its own price, rounded down. No product leaves the 64-bit range. */
  lemma MatchIsFair(n: Order, o: Order)
    requires Sound(n) && Sound(o) && Crosses(n, o)
    ensures var t := Match(n, o);
            && 0 < t.newPays <= n.forSale && 0 < t.oldPays <= o.forSale
            && (t.newPays == n.forSale || t.oldPays == o.forSale)
            && t.oldPays >= Convert(t.newPays, n.quote, n.base)
            && t.newPays >= Convert(t.oldPays, o.quote, o.base)
            && t.newPays < INT64_LIMIT && t.oldPays < INT64_LIMIT
  {
    var t := Match(n, o);
    var oldWants := Convert(o.forSale, o.quote, o.base);
    assert n.quote * o.quote <= o.base * n.base;
    if n.forSale <= oldWants {
      BetterPriceBuysMore(n.forSale, n.quote, n.base, o.base, o.quote);
      RoundTripLoses(n.forSale, o.base, o.quote);
      ConvertMono(n.forSale, oldWants, o.base, o.quote);
      RoundTripLoses(o.forSale, o.quote, o.base);
    } else {
      BetterPriceBuysMore(t.newPays, n.quote, n.base, o.base, o.quote);
      RoundTripLoses(o.forSale, o.quote, o.base);
    }
  }

  /** The trade is made at the resting order's price, and whoever is used up bears the rounding: a new order that is
      used up gets what it pays is worth, rounded down; otherwise it pays what the whole resting order is worth, rounded
      down. */
  lemma AtRestingPrice(n: Order, o: Order)
    requires Sound(n) && Sound(o)
    ensures var t := Match(n, o);
            if t.newPays == n.forSale
            then t.oldPays * o.quote <= t.newPays * o.base < (t.oldPays + 1) * o.quote
            else t.oldPays == o.forSale && t.newPays * o.base <= t.oldPays * o.quote < (t.newPays + 1) * o.base
  {
    var t := Match(n, o);
    FloorBounds(n.forSale * o.base, o.quote);
    FloorBounds(o.forSale * o.quote, o.base);
    assert (t.oldPays + 1) * o.quote == o.quote * t.oldPays + o.quote;
    assert (t.newPays + 1) * o.base == o.base * t.newPays + o.base;
  }

  lemma ConvertMono(x: int, y: int, a: int, b: int)
    requires 0 <= x <= y && a > 0 && b > 0
    ensures Convert(x, a, b) <= Convert(y, a, b)
  {
    FloorAtLeast(x * a, b, x * a / b);
    MulMono(x, y, a);
    FloorAtLeast(y * a, b, x * a / b);
  }

  /** What is left of an order that has paid `pays`. */
  function Rest(o: Order, pays: int): Order {
    o.(forSale := o.forSale - pays)
  }

  /** A remainder is either sound or too small to be sold at its price; it never overflows. */
  lemma RestIsSoundOrDust(o: Order, pays: int)
    requires Sound(o) && 0 < pays < o.forSale
    ensures Sound(Rest(o, pays)) || ToReceive(Rest(o, pays)) == 0
  {
    ConvertMono(o.forSale - pays, o.forSale, o.quote, o.base);
    FloorAtLeast((o.forSale - pays) * o.quote, o.base, 0);
  }

  // ----- the whole book -----

  type Book = map<nat, Order>

  /** What apply_order finds for a new order: the resting orders that cross it, up to price::max. */
  predicate Scanned(n: Order, o: Order) {
    Crosses(n, o) && BelowMax(o)
  }

  /** No order crosses an older one, except one above price::max. */
  ghost predicate Uncrossed(book: Book) {
    forall i, j :: i in book && j in book && i < j ==> !Scanned(book[j], book[i])
  }

  ghost predicate UncrossedBut(book: Book, n: nat) {
    forall i, j :: i in book && j in book && i < j && i != n && j != n ==> !Scanned(book[j], book[i])
  }

  /** No two opposite orders cross. */
  ghost predicate NothingCrosses(book: Book) {
    forall i, j :: i in book && j in book ==> !Crosses(book[i], book[j])
  }

  /** If the maximum supply could back every order then nothing crosses at all. */
  lemma UncrossedBelowMax(book: Book)
    requires Uncrossed(book) && forall i :: i in book ==> Sound(book[i]) && book[i].forSale <= MAX_SUPPLY
    ensures NothingCrosses(book)
  {
    forall i, j | i in book && j in book ensures !Crosses(book[i], book[j]) {
      SoundIsBelowMax(book[i]);
      SoundIsBelowMax(book[j]);
      CrossingIsSymmetric(book[i], book[j]);
      assert i < j ==> !Scanned(book[j], book[i]);
      assert j < i ==> !Scanned(book[i], book[j]);
    }
  }

  /** The exception is real: an offer of twice the maximum supply for one unit is never found by the order it
      crosses. */
  lemma AboveMaxIsMissed()
    ensures var high := Order("seller", 0, 2 * MAX_SUPPLY, 2 * MAX_SUPPLY, 1, true, 1);
            var low := Order("buyer", 0, 1, 1, 1, false, 1);
            Sound(high) && Sound(low) && Crosses(low, high) && !Scanned(low, high) &&
              Uncrossed(map[0 := high, 1 := low])
  {
    var high := Order("seller", 0, 2 * MAX_SUPPLY, 2 * MAX_SUPPLY, 1, true, 1);
    assert ToReceive(high) == 1;
  }

  /** Orders have only been removed or shrunk; nobody's price has changed. */
  ghost predicate Shrunk(before: Book, after: Book) {
    forall i :: i in after ==>
      i in before && after[i].forSale <= before[i].forSale && after[i] == before[i].(forSale := after[i].forSale)
  }

  lemma ShrinkingKeepsUncrossed(before: Book, after: Book, n: nat)
    requires Shrunk(before, after) && UncrossedBut(before, n)
    ensures UncrossedBut(after, n)
  {
    forall i, j | i in after && j in after && i < j && i != n && j != n ensures !Scanned(after[j], after[i]) {
      assert !Scanned(before[j], before[i]);
    }
  }

  lemma SmallerBookUncrossed(before: Book, after: Book)
    requires Shrunk(before, after) && Uncrossed(before)
    ensures Uncrossed(after)
  {
    forall i, j | i in after && j in after && i < j ensures !Scanned(after[j], after[i]) {
      assert !Scanned(before[j], before[i]);
    }
  }

  /** Once the newest order is gone or finds nothing, the book is uncrossed again. */
  lemma SettledBookUncrossed(book: Book, n: nat)
    requires UncrossedBut(book, n) && forall i :: i in book ==> i <= n
    requires n in book ==> forall i :: i in book ==> !Scanned(book[n], book[i])
    ensures Uncrossed(book)
  {
  }

  /** The order in which apply_order meets the resting orders: best price first, then oldest. */
  predicate Precedes(book: Book, i: nat, j: nat)
    requires i in book && j in book
  {
    Ahead(book[i].base, book[i].quote, i, book[j].base, book[j].quote, j)
  }

  /** Price p at id i comes before price p' at id i'. */
  predicate Ahead(p: int, q: int, i: nat, p': int, q': int, i': nat) {
    PriceAtLeast(p, q, p', q') && (PriceAtLeast(p', q', p, q) ==> i <= i')
  }

  lemma AheadTransitive(a: int, qa: int, i: nat, b: int, qb: int, j: nat, c: int, qc: int, k: nat)
    requires a > 0 && qa > 0 && b > 0 && qb > 0 && c > 0 && qc > 0
    requires Ahead(a, qa, i, b, qb, j) && Ahead(b, qb, j, c, qc, k)
    ensures Ahead(a, qa, i, c, qc, k)
  {
    RatioChain(a, qa, b, qb, c, qc);
    if PriceAtLeast(c, qc, a, qa) {
      RatioChain(c, qc, a, qa, b, qb);
      RatioChain(b, qb, c, qc, a, qa);
    }
  }

  lemma RatioChain(a: int, qa: int, b: int, qb: int, c: int, qc: int)
    requires a > 0 && qa > 0 && b > 0 && qb > 0 && c > 0 && qc > 0
    requires PriceAtLeast(a, qa, b, qb) && PriceAtLeast(b, qb, c, qc)
    ensures PriceAtLeast(a, qa, c, qc)
  {
    MulMono(qa * b, qb * a, qc);
    MulMono(qb * c, qc * b, qa);
    assert qa * b * qc == qc * b * qa && qb * c * qa == (qa * c) * qb && qb * a * qc == (qc * a) * qb;
    Cancel(qa * c, qc * a, qb);
  }
}
