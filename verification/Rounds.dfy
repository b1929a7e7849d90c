/** Which witnesses produce the next round, as a function of the indices: the elected, a miner, and those next in
    virtual time. */
module Rounds {
  import opened Common
  import opened Arith

  const TWO_128: nat := 0x1_0000_0000_0000_0000_0000_0000_0000_0000

  /** VIRTUAL_SCHEDULE_LAP_LENGTH2, the largest 128-bit value */
  const LAP: nat := TWO_128 - 1

  const MAX_VOTED: nat := 19
  const MAX_MINERS: nat := 1
  const MAX_WITNESSES: nat := 21

  datatype Kind = Top19 | Timeshare | Miner | NotScheduled

  datatype Witness = Witness(
    votes: nat,
    hasKey: bool,        // signing_key is not the null key
    powWorker: nat,
    position: nat,       // virtual_position
    lastUpdate: nat,     // virtual_last_update
    scheduled: nat,      // virtual_scheduled_time
    kind: Kind)

  type Witnesses = map<Name, Witness>

  function Wrap(x: int): (r: nat)
    ensures r < TWO_128
    ensures 0 <= x < TWO_128 ==> r == x
  {
    x % TWO_128
  }

  /** The rest of a lap at the speed given by the votes. */
  function Remaining(position: nat, votes: nat): (r: nat)
    requires position <= LAP
    ensures r <= LAP
  {
    LapWithin(LAP - position, votes);
    (LAP - position) / (votes + 1)
  }

  function LapTime(votes: nat): (r: nat)
    ensures r <= LAP
  {
    Remaining(0, votes)
  }

  /** At the speed of `votes`, `time` is how long the distance takes, in whole units. */
  predicate Takes(distance: int, votes: nat, time: int) {
    IsFloor(time, distance, votes + 1)
  }

  lemma RemainingTakes(position: nat, votes: nat)
    requires position <= LAP
    ensures Takes(LAP - position, votes, Remaining(position, votes))
  {
    FloorIs(LAP - position, votes + 1);
  }

  /** A new lap is a whole one. */
  lemma NewLapTakes(w: Witness, time: nat)
    ensures Takes(LAP, w.votes, NewLap(w, time).scheduled - time)
  {
    RemainingTakes(0, w.votes);
  }

  lemma TakesOnce(distance: int, votes: nat, a: int, b: int)
    requires Takes(distance, votes, a) && (votes + 1) * b <= distance
    ensures b <= a
  {
    if a + 1 <= b {
      MulMono(a + 1, b, votes + 1);
    }
  }

  /** More votes, or a position further on, never mean a later arrival. */
  lemma FasterIsSooner(position: nat, votes: nat, position': nat, votes': nat)
    requires position <= position' <= LAP && votes <= votes'
    ensures Remaining(position', votes') <= Remaining(position, votes)
  {
    RemainingTakes(position, votes);
    RemainingTakes(position', votes');
    MulMono(votes + 1, votes' + 1, Remaining(position', votes'));
    TakesOnce(LAP - position, votes, Remaining(position, votes), Remaining(position', votes'));
  }

  /** A lap is run at `votes + 1` but progress is counted at `votes`: bringing a witness up to date after `elapsed`
      units, with its votes unchanged, makes it arrive later by what `elapsed` takes at its speed, and never earlier. */
  lemma TouchingDelays(position: nat, votes: nat, elapsed: nat)
    requires position + votes * elapsed <= LAP
    ensures Takes(LAP - position + elapsed, votes, elapsed + Remaining(position + votes * elapsed, votes))
    ensures elapsed + Remaining(position + votes * elapsed, votes) >= Remaining(position, votes)
  {
    assert votes * elapsed >= 0;
    var r := Remaining(position + votes * elapsed, votes);
    RemainingTakes(position + votes * elapsed, votes);
    assert (votes + 1) * (elapsed + r) == votes * elapsed + elapsed + (votes + 1) * r;
    assert (votes + 1) * (elapsed + r + 1) == votes * elapsed + elapsed + (votes + 1) * (r + 1);
    RemainingTakes(position, votes);
    TakesOnce(LAP - position + elapsed, votes, elapsed + r, Remaining(position, votes));
  }

  /** The arrival is beyond 128 bits exactly when the rest of the lap is too long for the time left. */
  lemma ArrivesInTime(position: nat, votes: nat, clock: nat)
    requires position <= LAP && clock < TWO_128
    ensures Takes(LAP - position, votes, Remaining(position, votes))
    ensures clock + Remaining(position, votes) >= TWO_128 <==> LAP - position >= (votes + 1) * (TWO_128 - clock)
  {
    var r, left := Remaining(position, votes), TWO_128 - clock;
    RemainingTakes(position, votes);
    if r >= left {
      MulMono(left, r, votes + 1);
    } else {
      MulMono(r + 1, left, votes + 1);
    }
  }

  lemma LapWithin(length: nat, votes: nat)
    requires length <= LAP
    ensures 0 <= length / (votes + 1) <= LAP
  {
    FloorAtLeast(length, votes + 1, LAP + 1);
    FloorAtLeast(length, votes + 1, 0);
    assert (LAP + 1) * (votes + 1) == LAP * votes + LAP + votes + 1;
  }

  /** A wrapped sum of two values is below the first one exactly when it wrapped. */
  lemma Wrapped(a: nat, b: nat)
    requires a < TWO_128 && b <= LAP
    ensures Wrap(a + b) < a <==> a + b >= TWO_128
    ensures a + b < TWO_128 ==> Wrap(a + b) == a + b
  {
    if a + b >= TWO_128 {
      QuotientIs(a + b, TWO_128, 1, a + b - TWO_128);
    }
  }

  /** Wrapping each factor and summand is the same as wrapping once at the end. */
  lemma WrapOnce(p: nat, v: nat, d: int)
    ensures Wrap(p + Wrap(v * Wrap(d))) == Wrap(p + v * d)
  {
    var k, r := d / TWO_128, Wrap(d);
    assert d == k * TWO_128 + r;
    var l, s := v * r / TWO_128, Wrap(v * r);
    assert v * r == l * TWO_128 + s;
    SumOfMultiples(p, v, d, k, r, l, s);
    SameRemainder(p + s, v * k + l);
  }

  lemma SumOfMultiples(p: nat, v: nat, d: int, k: int, r: int, l: int, s: int)
    requires d == k * TWO_128 + r && v * r == l * TWO_128 + s
    ensures p + v * d == (v * k + l) * TWO_128 + (p + s)
  {
    assert v * d == v * (k * TWO_128) + v * r;
    assert v * (k * TWO_128) == v * k * TWO_128;
  }

  lemma SameRemainder(x: int, q: int)
    ensures Wrap(q * TWO_128 + x) == Wrap(x)
  {
    var m, r := x / TWO_128, Wrap(x);
    assert q * TWO_128 + x == (q + m) * TWO_128 + r;
    QuotientIs(q * TWO_128 + x, TWO_128, q + m, r);
  }

  // ----- indices -----

  /** In virtual time nobody is scheduled in the past. */
  ghost predicate OnTime(ws: Witnesses, clock: nat) {
    forall n {:trigger ws[n]} :: n in ws ==> clock <= ws[n].scheduled < TWO_128 && ws[n].position < TWO_128
  }

  /** An index: all witnesses, each once. */
  ghost predicate Enumerates(order: seq<Name>, ws: Witnesses) {
    Distinct(order) && forall n :: n in order <==> n in ws
  }

  ghost predicate Distinct(s: seq<Name>) {
    forall i, j :: 0 <= i < j < |s| ==> s[i] != s[j]
  }

  ghost predicate ByVotes(order: seq<Name>, ws: Witnesses) {
    Enumerates(order, ws) && forall i, j :: 0 <= i < j < |order| ==> ws[order[i]].votes >= ws[order[j]].votes
  }

  ghost predicate BySchedule(order: seq<Name>, ws: Witnesses) {
    Enumerates(order, ws) && forall i, j :: 0 <= i < j < |order| ==> ws[order[i]].scheduled <= ws[order[j]].scheduled
  }

  /** The mining queue: the witnesses with work, each once. */
  ghost predicate ByWork(order: seq<Name>, ws: Witnesses) {
    Distinct(order) && forall n :: n in order <==> n in ws && ws[n].powWorker > 0
  }

  ghost predicate Indexed(byVote: seq<Name>, byWork: seq<Name>, bySchedule: seq<Name>, ws: Witnesses) {
    ByVotes(byVote, ws) && ByWork(byWork, ws) && BySchedule(bySchedule, ws)
  }

  lemma InSchedule(byVote: seq<Name>, byWork: seq<Name>, bySchedule: seq<Name>, ws: Witnesses)
    requires Indexed(byVote, byWork, bySchedule, ws)
    ensures (forall n :: n in bySchedule ==> n in ws) && forall n :: n in Keyed(ws) ==> n in bySchedule
    ensures Distinct(byVote) && Distinct(byWork) && Distinct(bySchedule)
  {
  }

  function Keyed(ws: Witnesses): set<Name> {
    set n | n in ws && ws[n].hasKey
  }

  // ----- choosing from an index -----

  /** The first `cap` names among the first n of an index that have a key and are not excluded. */
  function Choose(order: seq<Name>, keyed: set<Name>, excluded: seq<Name>, cap: nat, n: nat): (r: seq<Name>)
    requires n <= |order|
    ensures |r| <= cap
  {
    if n == 0 then []
    else
      var chosen := Choose(order, keyed, excluded, cap, n - 1);
      if |chosen| < cap && Eligible(keyed, excluded, order[n - 1]) then chosen + [order[n - 1]] else chosen
  }

  predicate Eligible(keyed: set<Name>, excluded: seq<Name>, n: Name) {
    n in keyed && n !in excluded
  }

  /** How far an index is read until `cap` names are found: to the end if there are fewer. */
  function ReadUntil(order: seq<Name>, keyed: set<Name>, excluded: seq<Name>, cap: nat, n: nat): (r: nat)
    requires n <= |order|
    ensures n <= r <= |order|
    decreases |order| - n
  {
    if n == |order| || |Choose(order, keyed, excluded, cap, n)| == cap then n
    else ReadUntil(order, keyed, excluded, cap, n + 1)
  }

  /** The choice is without repetition, from the index, and eligible; whoever is eligible and not chosen comes after all
      the chosen ones, and only if the places are taken. */
  lemma {:induction false} ChoiceIsFirst(order: seq<Name>, keyed: set<Name>, excluded: seq<Name>, cap: nat, n: nat)
    requires n <= |order| && Distinct(order)
    ensures var r := Choose(order, keyed, excluded, cap, n);
            && Distinct(r) && (forall x :: x in r ==> x in order[..n] && Eligible(keyed, excluded, x))
            && (forall i :: 0 <= i < n && Eligible(keyed, excluded, order[i]) && order[i] !in r ==> |r| == cap)
            && (forall i, j :: 0 <= i < j < n && Eligible(keyed, excluded, order[i]) && order[j] in r ==> order[i] in r)
  {
    if n > 0 {
      ChoiceIsFirst(order, keyed, excluded, cap, n - 1);
      assert order[..n] == order[..n - 1] + [order[n - 1]];
      assert order[n - 1] !in order[..n - 1];
    }
  }

  lemma {:induction false} FullChoice(order: seq<Name>, keyed: set<Name>, excluded: seq<Name>, cap: nat, m: nat, n: nat)
    requires m <= n <= |order| && |Choose(order, keyed, excluded, cap, m)| == cap
    ensures Choose(order, keyed, excluded, cap, n) == Choose(order, keyed, excluded, cap, m)
    decreases n
  {
    if m < n {
      FullChoice(order, keyed, excluded, cap, m, n - 1);
    }
  }

  /** Reading the index step by step: what has been chosen so far, and that the end is not yet reached. */
  ghost predicate Reading(order: seq<Name>, keyed: set<Name>, excluded: seq<Name>, cap: nat, n: nat,
                          chosen: seq<Name>) {
    && n <= |order| && chosen == Choose(order, keyed, excluded, cap, n)
    && ReadUntil(order, keyed, excluded, cap, n) == ReadUntil(order, keyed, excluded, cap, 0)
  }

  lemma ReadOne(order: seq<Name>, keyed: set<Name>, excluded: seq<Name>, cap: nat, n: nat, chosen: seq<Name>)
    requires Reading(order, keyed, excluded, cap, n, chosen) && n < |order| && |chosen| < cap
    ensures Reading(order, keyed, excluded, cap, n + 1,
                    if Eligible(keyed, excluded, order[n]) then chosen + [order[n]] else chosen)
    ensures order[n] in order && order[..n + 1] == order[..n] + [order[n]]
  {
  }

  lemma ReadAll(order: seq<Name>, keyed: set<Name>, excluded: seq<Name>, cap: nat, n: nat, chosen: seq<Name>)
    requires Reading(order, keyed, excluded, cap, n, chosen) && (n == |order| || |chosen| == cap)
    ensures chosen == Choose(order, keyed, excluded, cap, |order|) && n == ReadUntil(order, keyed, excluded, cap, 0)
  {
    if n < |order| {
      FullChoice(order, keyed, excluded, cap, n, |order|);
    }
  }

  // ----- the next round -----

  /** Who is elected, who mines, who is next in virtual time; which miners leave the queue, who has been passed, and the
      time of the last one passed. */
  datatype Plan = Plan(voted: seq<Name>, miners: seq<Name>, picked: seq<Name>, looked: seq<Name>, passed: seq<Name>,
                       time: nat) {
    function Round(): seq<Name> {
      voted + miners + picked
    }
  }

  function Planned(byVote: seq<Name>, byWork: seq<Name>, bySchedule: seq<Name>, ws: Witnesses, clock: nat): Plan
    requires forall n :: n in bySchedule ==> n in ws
  {
    var keyed := Keyed(ws);
    var voted := Choose(byVote, keyed, [], MAX_VOTED, |byVote|);
    var miners := Choose(byWork, keyed, voted, MAX_MINERS, |byWork|);
    var looked := ReadUntil(byWork, keyed, voted, MAX_MINERS, 0);
    var chosen := voted + miners;
    var picked := Choose(bySchedule, keyed, chosen, MAX_WITNESSES - |chosen|, |bySchedule|);
    var passed := ReadUntil(bySchedule, keyed, chosen, MAX_WITNESSES - |chosen|, 0);
    Plan(voted, miners, picked, byWork[..looked], bySchedule[..passed], LastTime(bySchedule, ws, clock, passed))
  }

  function LastTime(bySchedule: seq<Name>, ws: Witnesses, clock: nat, passed: nat): nat
    requires passed <= |bySchedule| && forall n :: n in bySchedule ==> n in ws
  {
    if passed == 0 then clock else ws[bySchedule[passed - 1]].scheduled
  }

  function Marked(ws: Witnesses, names: seq<Name>, kind: Kind): Witnesses {
    map n | n in ws :: if n in names then ws[n].(kind := kind) else ws[n]
  }

  function Dequeued(ws: Witnesses, names: seq<Name>): Witnesses {
    map n | n in ws :: if n in names then ws[n].(powWorker := 0) else ws[n]
  }

  function NewLap(w: Witness, time: nat): Witness {
    w.(position := 0, lastUpdate := time, scheduled := time + LapTime(w.votes))
  }

  function Lapped(ws: Witnesses, names: seq<Name>, time: nat): Witnesses {
    map n | n in ws :: if n in names then NewLap(ws[n], time) else ws[n]
  }

  function Restarted(ws: Witnesses): Witnesses {
    map n | n in ws :: NewLap(ws[n], 0)
  }

  ghost predicate Overflows(ws: Witnesses, names: seq<Name>, time: nat) {
    exists n :: n in names && n in ws && time + LapTime(ws[n].votes) >= TWO_128
  }

  /** The witnesses once the round is chosen, before virtual time moves. */
  function Chosen(ws: Witnesses, p: Plan): Witnesses {
    Marked(Dequeued(Marked(Marked(ws, p.voted, Top19), p.miners, Miner), p.looked), p.picked, Timeshare)
  }

  ghost function Raced(ws: Witnesses, p: Plan): (Witnesses, nat) {
    if Overflows(ws, p.passed, p.time) then (Restarted(Chosen(ws, p)), 0)
    else (Lapped(Chosen(ws, p), p.passed, p.time), p.time)
  }

  /** Only the queue and the kind differ. */
  ghost predicate SameRace(a: Witnesses, b: Witnesses) {
    a.Keys == b.Keys && forall n {:trigger b[n]} :: n in a ==>
        b[n] == a[n].(kind := b[n].kind, powWorker := b[n].powWorker)
  }

  lemma ChosenRace(ws: Witnesses, p: Plan)
    ensures SameRace(ws, Chosen(ws, p))
  {
    var a := Marked(ws, p.voted, Top19);
    var b := Marked(a, p.miners, Miner);
    var c := Dequeued(b, p.looked);
    var d := Marked(c, p.picked, Timeshare);
    forall n | n in ws ensures d[n] == ws[n].(kind := d[n].kind, powWorker := d[n].powWorker) {
      assert a[n] == ws[n].(kind := a[n].kind);
      assert b[n] == a[n].(kind := b[n].kind);
      assert c[n] == b[n].(powWorker := c[n].powWorker);
    }
  }

  /** The elected are the best: nobody with a key and more votes is left out, and nobody at all unless all places are
      taken. */
  lemma TopIsBest(byVote: seq<Name>, ws: Witnesses)
    requires ByVotes(byVote, ws)
    ensures var voted := Choose(byVote, Keyed(ws), [], MAX_VOTED, |byVote|);
            forall n :: n in ws && ws[n].hasKey && n !in voted ==>
              |voted| == MAX_VOTED && forall v :: v in voted ==> v in ws && ws[v].votes >= ws[n].votes
  {
    ChoiceIsFirst(byVote, Keyed(ws), [], MAX_VOTED, |byVote|);
    var voted := Choose(byVote, Keyed(ws), [], MAX_VOTED, |byVote|);
    forall n | n in ws && ws[n].hasKey && n !in voted
      ensures |voted| == MAX_VOTED && forall v :: v in voted ==> v in ws && ws[v].votes >= ws[n].votes
    {
      var b :| 0 <= b < |byVote| && byVote[b] == n;
      forall v | v in voted ensures v in ws && ws[v].votes >= ws[n].votes {
        var c :| 0 <= c < |byVote| && byVote[c] == v;
        assert !(b < c);
      }
    }
  }

  /** The round: different witnesses with keys, 21 of them or, if there are fewer, every witness that has a key. */
  lemma RoundSize(byVote: seq<Name>, byWork: seq<Name>, bySchedule: seq<Name>, ws: Witnesses, clock: nat)
    requires Indexed(byVote, byWork, bySchedule, ws)
    ensures var round := Planned(byVote, byWork, bySchedule, ws, clock).Round();
            && Distinct(round) && (forall n :: n in round ==> n in Keyed(ws))
            && |round| == if |Keyed(ws)| < MAX_WITNESSES then |Keyed(ws)| else MAX_WITNESSES
  {
    hide Choose, ReadUntil, Indexed, Distinct, Keyed, LastTime;
    InSchedule(byVote, byWork, bySchedule, ws);
    var p, keyed := Planned(byVote, byWork, bySchedule, ws, clock), Keyed(ws);
    var chosen := p.voted + p.miners;
    ChosenFrom(byVote, keyed, [], MAX_VOTED);
    ChosenFrom(byWork, keyed, p.voted, MAX_MINERS);
    ChosenFrom(bySchedule, keyed, chosen, MAX_WITNESSES - |chosen|);
    TwoDistinct(p.voted, p.miners);
    TwoDistinct(chosen, p.picked);
    AsMany(p.Round(), keyed, MAX_WITNESSES);
  }

  /** What is chosen is eligible, and if places are left then everyone eligible in the index is chosen. */
  lemma ChosenFrom(order: seq<Name>, keyed: set<Name>, excluded: seq<Name>, cap: nat)
    requires Distinct(order)
    ensures var r := Choose(order, keyed, excluded, cap, |order|);
            && Distinct(r) && (forall n :: n in r ==> n in keyed && n !in excluded)
            && (|r| < cap ==> forall n :: n in order && n in keyed ==> n in excluded + r)
  {
    hide Choose, Distinct;
    ChoiceIsFirst(order, keyed, excluded, cap, |order|);
    var r := Choose(order, keyed, excluded, cap, |order|);
    forall n | n in r ensures n in keyed && n !in excluded {
      assert Eligible(keyed, excluded, n);
    }
    forall n | |r| < cap && n in order && n in keyed ensures n in excluded + r {
      var i :| 0 <= i < |order| && order[i] == n;
      assert n in excluded || Eligible(keyed, excluded, order[i]);
    }
  }

  lemma TwoDistinct(a: seq<Name>, b: seq<Name>)
    requires Distinct(a) && Distinct(b) && forall n :: n in b ==> n !in a
    ensures Distinct(a + b)
  {
    var c := a + b;
    forall i, j | 0 <= i < j < |c| ensures c[i] != c[j] {
      if i < |a| <= j {
        assert c[j] == b[j - |a|] && c[j] in b;
      }
    }
  }

  /** Different members of a set, at most `cap`, and all of them if fewer than `cap`: the smaller of the two numbers. */
  lemma AsMany(s: seq<Name>, all: set<Name>, cap: nat)
    requires Distinct(s) && |s| <= cap && (forall n :: n in s ==> n in all)
    requires |s| < cap ==> forall n :: n in all ==> n in s
    ensures |s| == if |all| < cap then |all| else cap
  {
    var members := set n | n in s;
    CountDistinct(s);
    Within(members, all);
    if |s| < cap {
      assert members == all;
    }
  }

  lemma {:induction false} CountDistinct(s: seq<Name>)
    requires Distinct(s)
    ensures |set n | n in s| == |s|
  {
    if s == [] {
      assert (set n | n in s) == {};
    } else {
      var rest, last := s[..|s| - 1], s[|s| - 1];
      CountDistinct(rest);
      assert s == rest + [last];
      assert (set n | n in s) == (set n | n in rest) + {last};
    }
  }

  lemma {:induction false} Within(a: set<Name>, b: set<Name>)
    requires forall n :: n in a ==> n in b
    ensures |a| <= |b|
  {
    if a != {} {
      var n :| n in a;
      Within(a - {n}, b - {n});
    }
  }

  /** Virtual time is fair: whoever is picked is scheduled no later than anyone with a key who is left out. */
  lemma NextInTime(byVote: seq<Name>, byWork: seq<Name>, bySchedule: seq<Name>, ws: Witnesses, clock: nat)
    requires Indexed(byVote, byWork, bySchedule, ws)
    ensures var p := Planned(byVote, byWork, bySchedule, ws, clock);
            forall n, v :: n in ws && ws[n].hasKey && n !in p.Round() && v in p.picked ==>
              v in ws && ws[v].scheduled <= ws[n].scheduled
  {
    hide Choose, ReadUntil, ByVotes, ByWork, BySchedule;
    InSchedule(byVote, byWork, bySchedule, ws);
    var p := Planned(byVote, byWork, bySchedule, ws, clock);
    var chosen := p.voted + p.miners;
    forall n, v | n in ws && ws[n].hasKey && n !in p.Round() && v in p.picked
      ensures v in ws && ws[v].scheduled <= ws[n].scheduled
    {
      assert n !in chosen && n !in p.picked;
      EarliestFirst(bySchedule, ws, chosen, MAX_WITNESSES - |chosen|, n, v);
    }
  }

  lemma EarliestFirst(order: seq<Name>, ws: Witnesses, excluded: seq<Name>, cap: nat, n: Name, v: Name)
    requires BySchedule(order, ws)
    requires n in ws && Eligible(Keyed(ws), excluded, n) && n !in Choose(order, Keyed(ws), excluded, cap, |order|)
    requires v in Choose(order, Keyed(ws), excluded, cap, |order|)
    ensures v in ws && ws[v].scheduled <= ws[n].scheduled
  {
    hide Choose;
    ChoiceIsFirst(order, Keyed(ws), excluded, cap, |order|);
    var b :| 0 <= b < |order| && order[b] == n;
    var c :| 0 <= c < |order| && order[c] == v;
    assert !(b < c);
  }

  /** After the race nobody is behind the new time, which is not before the old one unless it started over. */
  lemma RaceOnTime(byVote: seq<Name>, byWork: seq<Name>, bySchedule: seq<Name>, ws: Witnesses, clock: nat)
    requires Indexed(byVote, byWork, bySchedule, ws) && OnTime(ws, clock) && clock < TWO_128
    ensures var p := Planned(byVote, byWork, bySchedule, ws, clock);
            var (after, time) := Raced(ws, p);
            && after.Keys == ws.Keys && OnTime(after, time) && time < TWO_128
            && (Overflows(ws, p.passed, p.time) || clock <= time)
  {
    hide Choose, ReadUntil, Chosen, LapTime, Keyed, Distinct, ByVotes, ByWork, BySchedule;
    InSchedule(byVote, byWork, bySchedule, ws);
    var p := Planned(byVote, byWork, bySchedule, ws, clock);
    var passed := ReadUntil(bySchedule, Keyed(ws), p.voted + p.miners, MAX_WITNESSES - |p.voted + p.miners|, 0);
    TimeMoves(bySchedule, ws, clock, passed);
    ChosenRace(ws, p);
    if Overflows(ws, p.passed, p.time) {
      RestartOnTime(Chosen(ws, p));
    } else {
      LapsOnTime(bySchedule, ws, Chosen(ws, p), clock, passed);
    }
  }

  /** The last one passed is not behind the clock. */
  lemma TimeMoves(order: seq<Name>, ws: Witnesses, clock: nat, passed: nat)
    requires OnTime(ws, clock) && BySchedule(order, ws) && passed <= |order| && clock < TWO_128
    ensures clock <= LastTime(order, ws, clock, passed) < TWO_128
  {
    if passed > 0 {
      assert order[passed - 1] in order;
    }
  }

  lemma RestartOnTime(ws: Witnesses)
    ensures OnTime(Restarted(ws), 0)
  {
    forall n | n in ws ensures 0 <= Restarted(ws)[n].scheduled < TWO_128 {
      assert LapTime(ws[n].votes) <= LAP;
    }
  }

  /** Those passed start a lap at the new time, the others are scheduled later. */
  lemma LapsOnTime(order: seq<Name>, ws: Witnesses, chosen: Witnesses, clock: nat, passed: nat)
    requires OnTime(ws, clock) && BySchedule(order, ws) && passed <= |order| && SameRace(ws, chosen)
    requires !Overflows(ws, order[..passed], LastTime(order, ws, clock, passed))
    ensures OnTime(Lapped(chosen, order[..passed], LastTime(order, ws, clock, passed)),
                   LastTime(order, ws, clock, passed))
  {
    hide LapTime;
    var time := LastTime(order, ws, clock, passed);
    var after := Lapped(chosen, order[..passed], time);
    forall n | n in after ensures time <= after[n].scheduled < TWO_128 && after[n].position < TWO_128 {
      assert chosen[n] == ws[n].(kind := chosen[n].kind, powWorker := chosen[n].powWorker);
      var j :| 0 <= j < |order| && order[j] == n;
      if j < passed {
        assert n == order[..passed][j];
      } else if passed > 0 {
        assert ws[order[passed - 1]].scheduled <= ws[order[j]].scheduled;
      }
    }
  }
}
