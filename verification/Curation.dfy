/** How a post's curation weights are worked out from its votes: the reward curve over accumulated
    vote shares, the auction-window discount, and the running totals that payouts divide by. */
module Curation {
  import opened Arith
  import opened Common
  import ApproxSqrt

  const TWO_64: nat := 0x1_0000_0000_0000_0000
  const MAX_SHARES: nat := 0x7fff_ffff_ffff_ffff
  const CONTENT_CONSTANT: nat := 2_000_000_000_000

  datatype Curve = Bounded | SquareRoot

  /** A vote in the order it was cast. `origRshares` is what it added when cast (positive votes only),
      `changes` counts re-votes, with -1 marking a vote due for removal, and `rates` are the delegators
      who share in the reward. */
  datatype Vote = Vote(voter: Name, voterId: nat, origRshares: int, auctionTime: nat, changes: int, rates: seq<Share>)

  /** An account and its part of a reward, in hundredths of a percent. */
  datatype Share = Share(account: Name, percent: nat)

  predicate Counts(v: Vote) {
    v.origRshares > 0
  }

  predicate Changed(v: Vote) {
    v.changes != 0 && v.changes != -1
  }

  /** A vote counts as changed exactly when its voter has touched it again, and archiving its post, which turns the
      number of changes n into -1 - n, does not alter that. */
  lemma ArchivingKeeps(v: Vote, n: nat)
    ensures v.changes == n || v.changes == -1 - n ==> (Changed(v) <==> n > 0)
  {
  }

  /** No vote carries more than the whole auction window. */
  predicate InTime(window: nat, votes: seq<Vote>) {
    forall v :: v in votes ==> v.auctionTime <= window
  }

  // ----- the reward curve W -----

  function CurveAt(curve: Curve, r: nat): nat {
    match curve
    case Bounded => r * (TWO_64 - 1) / (2 * CONTENT_CONSTANT + r)
    case SquareRoot => ApproxSqrt.Approx(r)
  }

  lemma RatioMonotone(a: nat, b: nat, k: nat, m: nat)
    requires a <= b && k > 0
    ensures a * m / (k + a) <= b * m / (k + b)
  {
    var q := a * m / (k + a);
    FloorAtLeast(a * m, k + a, q);
    FloorAtLeast(b * m, k + b, q);
    RatioBelow(a, k, m);
    SplitProducts(q, a, b, k, m);
    MulMono(q, m, b - a);
  }

  lemma SplitProducts(q: int, a: int, b: int, k: int, m: int)
    ensures q * (k + b) == q * (k + a) + q * (b - a) && b * m == a * m + m * (b - a)
  {
  }

  lemma RatioBelow(a: nat, k: nat, m: nat)
    requires k > 0
    ensures 0 <= a * m / (k + a) <= m
  {
    FloorAtLeast(a * m, k + a, m + 1);
    FloorAtLeast(a * m, k + a, 0);
    assert (m + 1) * (k + a) == a * m + m * k + k + a;
    assert m * k >= 0;
  }

  /** The curve never falls, and its values fit in 64 bits. */
  lemma CurveRises(curve: Curve, a: nat, b: nat)
    requires a <= b
    ensures CurveAt(curve, a) <= CurveAt(curve, b)
  {
    match curve
    case Bounded => RatioMonotone(a, b, 2 * CONTENT_CONSTANT, TWO_64 - 1);
    case SquareRoot => ApproxSqrt.ApproxMonotone(a, b);
  }

  /** The bounded curve is the share that the support has in the support plus twice the content constant. It passes half
      of its height just above that constant, and never reaches the whole. */
  lemma BoundedCurve(r: nat)
    ensures IsFloor(CurveAt(Bounded, r), r * (TWO_64 - 1), 2 * CONTENT_CONSTANT + r)
    ensures CurveAt(Bounded, r) >= TWO_64 / 2 <==> r > 2 * CONTENT_CONSTANT
    ensures CurveAt(Bounded, r) < TWO_64 - 1
  {
    var k := 2 * CONTENT_CONSTANT;
    FloorIs(r * (TWO_64 - 1), k + r);
    FloorAtLeast(r * (TWO_64 - 1), k + r, TWO_64 / 2);
    FloorAtLeast(r * (TWO_64 - 1), k + r, TWO_64 - 1);
  }

  lemma CurveFits(curve: Curve, r: nat)
    requires r <= MAX_SHARES
    ensures CurveAt(curve, r) < TWO_64
  {
    match curve
    case Bounded => RatioBelow(r, 2 * CONTENT_CONSTANT, TWO_64 - 1);
    case SquareRoot => ApproxSqrt.ApproxFits(r);
  }

  // ----- what the totals mean -----

  /** Vote shares accumulated by the positive ones of the first n votes. */
  function Support(votes: seq<Vote>, n: nat): nat
    requires n <= |votes|
  {
    if n == 0 then 0
    else Support(votes, n - 1) + (if Counts(votes[n - 1]) then votes[n - 1].origRshares else 0)
  }

  lemma {:induction false} SupportGrows(votes: seq<Vote>, m: nat, n: nat)
    requires m <= n <= |votes|
    ensures Support(votes, m) <= Support(votes, n)
    decreases n
  {
    if m < n {
      SupportGrows(votes, m, n - 1);
    }
  }

  /** How far vote n moves up the curve. */
  function Rise(curve: Curve, votes: seq<Vote>, n: nat): nat
    requires n < |votes|
  {
    CurveRises(curve, Support(votes, n), Support(votes, n + 1));
    CurveAt(curve, Support(votes, n + 1)) - CurveAt(curve, Support(votes, n))
  }

  /** The part of a rise that stays with the voter: all of it after the window, pro rata inside. */
  function Kept(window: nat, time: nat, rise: nat): (r: nat)
    requires time <= window
    ensures r <= rise
  {
    if time == window then rise
    else
      FloorAtLeast(rise * time, window, rise + 1);
      MulMono(time, window, rise);
      FloorAtLeast(rise * time, window, 0);
      rise * time / window
  }

  /** In proportion to the time of the vote in the window, rounded down; without a window everything is kept. */
  lemma KeptIsProRata(window: nat, time: nat, rise: nat)
    requires time <= window
    ensures if window == 0 then Kept(window, time, rise) == rise
            else IsFloor(Kept(window, time, rise), rise * time, window)
  {
    if 0 < window {
      FloorIs(rise * time, window);
      FloorUnique(if time == window then rise else rise * time / window, rise * time, window);
    }
  }

  function Keeps(curve: Curve, window: nat, votes: seq<Vote>, n: nat): (r: nat)
    requires n < |votes| && InTime(window, votes)
    ensures r <= Rise(curve, votes, n)
  {
    Kept(window, votes[n].auctionTime, Rise(curve, votes, n))
  }

  /** The weight vote n is paid by: nothing once its voter has changed it. */
  function Weight(curve: Curve, window: nat, votes: seq<Vote>, n: nat): nat
    requires n < |votes| && InTime(window, votes)
  {
    if Changed(votes[n]) then 0 else Keeps(curve, window, votes, n)
  }

  predicate Early(window: nat, v: Vote) {
    v.auctionTime != window
  }

  /** Where the rises went: to the auction window, to unchanged votes inside it, to unchanged votes after
      it, or to nobody because the vote was changed. */
  datatype Totals = Totals(auction: nat, early: nat, late: nat, lost: nat)

  function Gathered(curve: Curve, window: nat, votes: seq<Vote>, n: nat): Totals
    requires n <= |votes| && InTime(window, votes)
  {
    if n == 0 then Totals(0, 0, 0, 0)
    else
      Parted(Gathered(curve, window, votes, n - 1), window, votes[n - 1],
             Rise(curve, votes, n - 1), Keeps(curve, window, votes, n - 1))
  }

  function Parted(t: Totals, window: nat, v: Vote, rise: nat, kept: nat): Totals
    requires kept <= rise
  {
    var auction := t.auction + (rise - kept);
    if Changed(v) then t.(auction := auction, lost := t.lost + kept)
    else if Early(window, v) then t.(auction := auction, early := t.early + kept)
    else t.(auction := auction, late := t.late + kept)
  }

  function TotalWeight(t: Totals): nat {
    t.auction + t.early + t.late
  }

  /** The weights telescope: together with what changed votes forfeited they are exactly W of the
      accumulated shares. */
  lemma {:induction false} WeightsTelescope(curve: Curve, window: nat, votes: seq<Vote>, n: nat)
    requires n <= |votes| && InTime(window, votes)
    ensures var t := Gathered(curve, window, votes, n);
            TotalWeight(t) + t.lost == CurveAt(curve, Support(votes, n))
  {
    if n == 0 {
      CurveOfNothing(curve);
    } else {
      WeightsTelescope(curve, window, votes, n - 1);
    }
  }

  lemma CurveOfNothing(curve: Curve)
    ensures CurveAt(curve, 0) == 0
  {
  }

  /** So the total is at most W of the final shares and fits in 64 bits. */
  lemma TotalFits(curve: Curve, window: nat, votes: seq<Vote>, n: nat)
    requires n <= |votes| && InTime(window, votes) && Support(votes, n) <= MAX_SHARES
    ensures TotalWeight(Gathered(curve, window, votes, n)) <= CurveAt(curve, Support(votes, n)) < TWO_64
  {
    WeightsTelescope(curve, window, votes, n);
    CurveFits(curve, Support(votes, n));
  }

  /** When nobody changed a vote, nothing is lost: the total is W of the accumulated shares. */
  lemma {:induction false} NothingLost(curve: Curve, window: nat, votes: seq<Vote>, n: nat)
    requires n <= |votes| && InTime(window, votes) && forall v :: v in votes ==> !Changed(v)
    ensures TotalWeight(Gathered(curve, window, votes, n)) == CurveAt(curve, Support(votes, n))
  {
    if n == 0 {
      CurveOfNothing(curve);
    } else {
      NothingLost(curve, window, votes, n - 1);
    }
  }

  // ----- the vote list -----

  datatype Entry = Entry(vote: Vote, weight: nat)

  /** Heavier first, then by the voter's account id. */
  predicate HeavierFirst(a: Entry, b: Entry) {
    if a.weight == b.weight then a.vote.voterId <= b.vote.voterId else a.weight > b.weight
  }

  predicate Ordered(list: seq<Entry>) {
    forall i, j :: 0 <= i < j < |list| ==> HeavierFirst(list[i], list[j])
  }

  function Insert(e: Entry, list: seq<Entry>): seq<Entry> {
    if list == [] || HeavierFirst(e, list[0]) then [e] + list
    else [list[0]] + Insert(e, list[1..])
  }

  /** std::sort with the comparison above. */
  function Sort(list: seq<Entry>): seq<Entry> {
    if list == [] then [] else Insert(list[|list| - 1], Sort(list[..|list| - 1]))
  }

  lemma {:induction false} InsertOrders(e: Entry, list: seq<Entry>)
    requires Ordered(list)
    ensures Ordered(Insert(e, list)) && multiset(Insert(e, list)) == multiset(list) + multiset{e}
  {
    if list == [] {
    } else if HeavierFirst(e, list[0]) {
      forall x | x in list ensures HeavierFirst(e, x) {
        assert x == list[0] || HeavierFirst(list[0], x);
      }
      InFront(e, list);
    } else {
      var rest := Insert(e, list[1..]);
      assert list == [list[0]] + list[1..];
      InsertOrders(e, list[1..]);
      forall x | x in rest ensures HeavierFirst(list[0], x) {
        assert x in multiset(rest);
      }
      InFront(list[0], rest);
    }
  }

  lemma InFront(e: Entry, list: seq<Entry>)
    requires Ordered(list) && forall x :: x in list ==> HeavierFirst(e, x)
    ensures Ordered([e] + list)
  {
    hide HeavierFirst;
  }

  lemma {:induction false} SortOrders(list: seq<Entry>)
    ensures Ordered(Sort(list)) && multiset(Sort(list)) == multiset(list)
  {
    if list != [] {
      assert list == list[..|list| - 1] + [list[|list| - 1]];
      SortOrders(list[..|list| - 1]);
      InsertOrders(list[|list| - 1], Sort(list[..|list| - 1]));
    }
  }

  /** Sum of the weights of the entries cast inside (early) or after the window. */
  function ListWeight(window: nat, early: bool, list: seq<Entry>): nat {
    if list == [] then 0
    else (if Early(window, list[0].vote) == early then list[0].weight else 0) + ListWeight(window, early, list[1..])
  }

  lemma {:induction false} InsertWeighs(window: nat, early: bool, e: Entry, list: seq<Entry>)
    ensures ListWeight(window, early, Insert(e, list)) == ListWeight(window, early, [e] + list)
  {
    if list == [] || HeavierFirst(e, list[0]) {
      assert ([e] + list)[1..] == list;
    } else {
      InsertWeighs(window, early, e, list[1..]);
      assert ([e] + list)[1..] == list;
      assert ([e] + list[1..])[1..] == list[1..];
      assert ([list[0]] + Insert(e, list[1..]))[1..] == Insert(e, list[1..]);
    }
  }

  lemma {:induction false} AppendWeighs(window: nat, early: bool, list: seq<Entry>, e: Entry)
    ensures ListWeight(window, early, list + [e]) == ListWeight(window, early, list) + ListWeight(window, early, [e])
  {
    if list != [] {
      AppendWeighs(window, early, list[1..], e);
      assert (list + [e])[1..] == list[1..] + [e];
    } else {
      assert list + [e] == [e];
    }
  }

  lemma {:induction false} SortWeighs(window: nat, early: bool, list: seq<Entry>)
    ensures ListWeight(window, early, Sort(list)) == ListWeight(window, early, list)
  {
    if list != [] {
      var e := list[|list| - 1];
      assert list == list[..|list| - 1] + [e];
      SortWeighs(window, early, list[..|list| - 1]);
      InsertWeighs(window, early, e, Sort(list[..|list| - 1]));
      AppendWeighs(window, early, list[..|list| - 1], e);
      assert ([e] + Sort(list[..|list| - 1]))[1..] == Sort(list[..|list| - 1]);
      assert [e][1..] == [];
    }
  }

  /** The first n votes that have a weight, in the order cast. */
  function Listed(curve: Curve, window: nat, votes: seq<Vote>, n: nat): seq<Entry>
    requires n <= |votes| && InTime(window, votes)
  {
    if n == 0 then []
    else
      var weight := Weight(curve, window, votes, n - 1);
      var list := Listed(curve, window, votes, n - 1);
      if weight > 0 then list + [Entry(votes[n - 1], weight)] else list
  }

  /** The list carries exactly the early and the late weight. */
  lemma {:induction false} ListCarries(curve: Curve, window: nat, votes: seq<Vote>, n: nat)
    requires n <= |votes| && InTime(window, votes)
    ensures var t := Gathered(curve, window, votes, n);
            && ListWeight(window, true, Listed(curve, window, votes, n)) == t.early
            && ListWeight(window, false, Listed(curve, window, votes, n)) == t.late
  {
    hide CurveAt, Rise, Keeps;
    if n > 0 {
      ListCarries(curve, window, votes, n - 1);
      var weight := Weight(curve, window, votes, n - 1);
      if weight > 0 {
        var e := Entry(votes[n - 1], weight);
        assert [e][1..] == [];
        AppendWeighs(window, true, Listed(curve, window, votes, n - 1), e);
        AppendWeighs(window, false, Listed(curve, window, votes, n - 1), e);
      }
    }
  }

  // ----- the code: running totals in 64-bit words -----

  function Wrap(x: int): (r: nat)
    ensures 0 <= x < TWO_64 ==> r == x
  {
    x % TWO_64
  }

  /** calculate_weight_helper. */
  class Weigher {
    const curve: Curve
    const window: nat
    var shares: nat
    var oldWeight: nat
    var total: nat
    var auction: nat
    var early: nat

    constructor (curve: Curve, window: nat, ghost votes: seq<Vote>)
      requires InTime(window, votes)
      ensures this.curve == curve && this.window == window && Describes(votes, 0)
    {
      hide CurveAt, Gathered, Support;
      this.curve, this.window := curve, window;
      shares, oldWeight, total, auction, early := 0, 0, 0, 0, 0;
      new;
      AtStart(curve, window, votes);
    }

    /** The fields are the accounts of the first n votes. */
    ghost predicate Describes(votes: seq<Vote>, n: nat)
      requires n <= |votes| && InTime(window, votes)
      reads this
    {
      && Support(votes, n) <= MAX_SHARES
      && shares == Support(votes, n)
      && oldWeight == CurveAt(curve, shares)
      && total == TotalWeight(Gathered(curve, window, votes, n))
      && auction == Gathered(curve, window, votes, n).auction
      && early == Gathered(curve, window, votes, n).early
    }

    /** calculate_bounded and calculate_square_root: the step up the curve, subtracted in 64 bits. */
    method Step() returns (weight: nat)
      modifies this`oldWeight
      ensures weight == Wrap(CurveAt(curve, shares) - old(oldWeight)) && oldWeight == CurveAt(curve, shares)
    {
      weight := Wrap(CurveAt(curve, shares) - oldWeight);
      oldWeight := CurveAt(curve, shares);
    }

    /** calculate_weight on vote n. Adding to the shares is checked and fails beyond 63 bits; everything else
        is 64-bit arithmetic that might wrap, and by this contract does not. */
    method Weigh(vote: Vote, ghost votes: seq<Vote>, ghost n: nat) returns (r: Option<nat>)
      requires n < |votes| && votes[n] == vote && InTime(window, votes) && Describes(votes, n)
      modifies this
      ensures r.None? <==> Support(votes, n + 1) > MAX_SHARES
      ensures r.Some? ==> Describes(votes, n + 1) && r.value == Weight(curve, window, votes, n)
    {
      hide CurveAt, Rise, Kept, Wrap, Support, Gathered;
      NextTotals(curve, window, votes, n);
      Unsupportive(curve, window, votes, n);
      if vote.origRshares <= 0 {
        return Some(0);
      }
      if shares + vote.origRshares > MAX_SHARES {
        return None;
      }
      shares := shares + vote.origRshares;
      RoomFor(curve, window, votes, n);
      var weight := Step();
      if weight > 0 && vote.auctionTime != window {
        var kept := Kept(window, vote.auctionTime, weight);
        var auctionWeight := Wrap(weight - kept);
        weight := kept;
        total := Wrap(total + auctionWeight);
        auction := Wrap(auction + auctionWeight);
        if !Changed(vote) {
          early := Wrap(early + weight);
        }
      }
      if Changed(vote) {
        return Some(0);
      }
      total := Wrap(total + weight);
      return Some(weight);
    }
  }

  lemma AtStart(curve: Curve, window: nat, votes: seq<Vote>)
    requires InTime(window, votes)
    ensures Support(votes, 0) == 0 && CurveAt(curve, Support(votes, 0)) == 0
    ensures Gathered(curve, window, votes, 0) == Totals(0, 0, 0, 0) && Listed(curve, window, votes, 0) == []
  {
    hide CurveAt, Rise, Keeps, Weight, Parted;
    CurveOfNothing(curve);
  }

  lemma NextTotals(curve: Curve, window: nat, votes: seq<Vote>, n: nat)
    requires n < |votes| && InTime(window, votes)
    ensures Gathered(curve, window, votes, n + 1) ==
            Parted(Gathered(curve, window, votes, n), window, votes[n],
                   Rise(curve, votes, n), Keeps(curve, window, votes, n))
    ensures Support(votes, n + 1) == Support(votes, n) + if Counts(votes[n]) then votes[n].origRshares else 0
  {
  }

  lemma ListsNext(curve: Curve, window: nat, votes: seq<Vote>, n: nat)
    requires n < |votes| && InTime(window, votes)
    ensures var list := Listed(curve, window, votes, n);
            var weight := Weight(curve, window, votes, n);
            Listed(curve, window, votes, n + 1) == if weight > 0 then list + [Entry(votes[n], weight)] else list
  {
  }

  /** A vote without positive shares moves nothing. */
  lemma Unsupportive(curve: Curve, window: nat, votes: seq<Vote>, n: nat)
    requires n < |votes| && InTime(window, votes)
    ensures !Counts(votes[n]) ==> Rise(curve, votes, n) == 0
  {
  }

  /** Every intermediate 64-bit value stays below 2^64. */
  lemma RoomFor(curve: Curve, window: nat, votes: seq<Vote>, n: nat)
    requires n < |votes| && InTime(window, votes) && Support(votes, n + 1) <= MAX_SHARES
    ensures TotalWeight(Gathered(curve, window, votes, n)) + Rise(curve, votes, n) < TWO_64
    ensures Rise(curve, votes, n) == CurveAt(curve, Support(votes, n + 1)) - CurveAt(curve, Support(votes, n))
    ensures votes[n].auctionTime == window ==> Keeps(curve, window, votes, n) == Rise(curve, votes, n)
  {
    WeightsTelescope(curve, window, votes, n);
    CurveFits(curve, Support(votes, n + 1));
    CurveRises(curve, Support(votes, n), Support(votes, n + 1));
  }

  /** comment_curation_info of a post that has not been paid out. */
  datatype Info = Info(list: seq<Entry>, total: nat, auction: nat, early: nat, late: nat)

  /** What payouts rely on: the three parts make up the total, and the list, heaviest first, carries exactly
      the early and the late part. */
  predicate Consistent(window: nat, info: Info) {
    && info.total == info.auction + info.early + info.late
    && info.total < TWO_64
    && Ordered(info.list)
    && ListWeight(window, true, info.list) == info.early
    && ListWeight(window, false, info.list) == info.late
  }

  /** The weights of the votes and their sums, in exact arithmetic. */
  function InfoOf(curve: Curve, window: nat, votes: seq<Vote>): Info
    requires InTime(window, votes)
  {
    var t := Gathered(curve, window, votes, |votes|);
    Info(Sort(Listed(curve, window, votes, |votes|)), TotalWeight(t), t.auction, t.early, t.late)
  }

  lemma InfoConsistent(curve: Curve, window: nat, votes: seq<Vote>)
    requires InTime(window, votes) && Support(votes, |votes|) <= MAX_SHARES
    ensures Consistent(window, InfoOf(curve, window, votes))
  {
    hide CurveAt, Rise, Weight, Gathered, Listed, Support, Sort;
    var list := Listed(curve, window, votes, |votes|);
    TotalFits(curve, window, votes, |votes|);
    SortOrders(list);
    SortWeighs(window, true, list);
    SortWeighs(window, false, list);
    ListCarries(curve, window, votes, |votes|);
  }

  /** The constructor of comment_curation_info: one pass over the votes in 64-bit arithmetic, then a sort. The
      after-window weight, found by two subtractions, is exact. */
  method Collect(curve: Curve, window: nat, votes: seq<Vote>) returns (r: Option<Info>)
    requires InTime(window, votes)
    ensures r.None? <==> Support(votes, |votes|) > MAX_SHARES
    ensures r.Some? ==> r.value == InfoOf(curve, window, votes) && Consistent(window, r.value)
  {
    hide CurveAt, Rise, Weight, Wrap, Gathered, Listed, Support, Sort;
    AtStart(curve, window, votes);
    var w := new Weigher(curve, window, votes);
    var list: seq<Entry> := [];
    for n := 0 to |votes|
      invariant w.curve == curve && w.window == window
      invariant w.Describes(votes, n)
      invariant list == Listed(curve, window, votes, n)
    {
      var weight := w.Weigh(votes[n], votes, n);
      ListsNext(curve, window, votes, n);
      if weight.None? {
        SupportGrows(votes, n + 1, |votes|);
        return None;
      }
      if weight.value > 0 {
        list := list + [Entry(votes[n], weight.value)];
      }
    }
    InfoConsistent(curve, window, votes);
    r := Some(Info(Sort(list), w.total, w.auction, w.early, Wrap(Wrap(w.total - w.early) - w.auction)));
  }
}
