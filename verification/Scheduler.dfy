/** Witness scheduling: the state of the race in virtual time, which may wrap around 128 bits, and its updates. */
module Scheduler {
  import opened Common
  import opened Rounds

  class Scheduler {
    var witnesses: Witnesses
    var clock: nat               // current_virtual_time
    var shuffled: array<Name>    // current_shuffled_witnesses
    var count: nat               // num_scheduled_witnesses

    constructor ()
      ensures Valid() && witnesses == map[] && clock == 0
    {
      witnesses, clock, count := map[], 0, 1;
      shuffled := new Name[MAX_WITNESSES](i => "");
    }

    ghost predicate Valid()
      reads this
    {
      clock < TWO_128 && OnTime(witnesses, clock) && shuffled.Length == MAX_WITNESSES
    }

    /** witness_update: a changed signing key; a new witness starts at the far end of virtual time. */
    method UpdateWitness(n: Name, hasKey: bool)
      requires Valid()
      modifies this`witnesses
      ensures Valid() && n in witnesses && witnesses == old(witnesses)[n := witnesses[n]]
      ensures witnesses[n] == if n in old(witnesses) then old(witnesses)[n].(hasKey := hasKey)
                              else Witness(0, hasKey, 0, 0, 0, LAP, NotScheduled)
    {
      if n in witnesses {
        assert witnesses[n].position < TWO_128;
        witnesses := witnesses[n := witnesses[n].(hasKey := hasKey)];
      } else {
        witnesses := witnesses[n := Witness(0, hasKey, 0, 0, 0, LAP, NotScheduled)];
      }
    }

    /** adjust_witness_vote, virtual time only: position and schedule follow the change of speed. Every sum,
        difference and product wraps. It arrives when the rest of the lap is run at the new speed, or at the far end of
        time if that is beyond 128 bits. */
    method AdjustVote(n: Name, delta: int)
      requires Valid() && n in witnesses && witnesses[n].votes + delta >= 0
      modifies this`witnesses
      ensures Valid() && n in witnesses && witnesses == old(witnesses)[n := witnesses[n]]
      ensures var w, r := old(witnesses)[n], witnesses[n];
              && r == w.(position := Wrap(w.position + w.votes * (clock - w.lastUpdate)), lastUpdate := clock,
                         votes := w.votes + delta, scheduled := r.scheduled)
              && if LAP - r.position >= (r.votes + 1) * (TWO_128 - clock) then r.scheduled == LAP
                 else Takes(LAP - r.position, r.votes, r.scheduled - clock)
    {
      var w := witnesses[n];
      assert w.position < TWO_128;
      var moved := Wrap(w.votes * Wrap(clock - w.lastUpdate));
      var position := Wrap(w.position + moved);
      WrapOnce(w.position, w.votes, clock - w.lastUpdate);
      var votes := w.votes + delta;
      var scheduled := Wrap(clock + Remaining(position, votes));
      if scheduled < clock {
        scheduled := LAP;
      }
      Wrapped(clock, Remaining(position, votes));
      ArrivesInTime(position, votes, clock);
      witnesses :=
          witnesses[n := w.(position := position, lastUpdate := clock, votes := votes, scheduled := scheduled)];
    }

    /** The top voted witnesses that have a signing key. */
    method SelectVoted(byVote: seq<Name>) returns (voted: seq<Name>)
      requires forall n :: n in byVote ==> n in witnesses
      modifies this`witnesses
      ensures voted == Choose(byVote, Keyed(old(witnesses)), [], MAX_VOTED, |byVote|)
      ensures witnesses == Marked(old(witnesses), voted, Top19)
    {
      hide Choose, ReadUntil, Reading, Marked;
      ghost var before, keyed := witnesses, Keyed(witnesses);
      voted := [];
      var i := 0;
      StartReading(byVote, keyed, [], MAX_VOTED);
      MarkNone(before, Top19);
      while i < |byVote| && |voted| < MAX_VOTED
        invariant i <= |byVote| && |voted| <= MAX_VOTED && Reading(byVote, keyed, [], MAX_VOTED, i, voted)
        invariant witnesses == Marked(before, voted, Top19)
      {
        var n := byVote[i];
        ReadOne(byVote, keyed, [], MAX_VOTED, i, voted);
        MarkOne(before, voted, Top19, n);
        if witnesses[n].hasKey {
          voted := voted + [n];
          witnesses := witnesses[n := witnesses[n].(kind := Top19)];
        }
        i := i + 1;
      }
      ReadAll(byVote, keyed, [], MAX_VOTED, i, voted);
    }

    /** At most one miner from the queue who is not elected and has a key; whoever was looked at leaves the queue. */
    method SelectMiners(byWork: seq<Name>, voted: seq<Name>) returns (miners: seq<Name>)
      requires forall n :: n in byWork ==> n in witnesses
      modifies this`witnesses
      ensures var keyed := Keyed(old(witnesses));
              && miners == Choose(byWork, keyed, voted, MAX_MINERS, |byWork|)
              && witnesses == Dequeued(Marked(old(witnesses), miners, Miner),
                                       byWork[..ReadUntil(byWork, keyed, voted, MAX_MINERS, 0)])
    {
      hide Choose, ReadUntil, Reading, Marked, Dequeued;
      ghost var before, keyed := witnesses, Keyed(witnesses);
      miners := [];
      var i := 0;
      StartReading(byWork, keyed, voted, MAX_MINERS);
      MineNone(before);
      while i < |byWork| && |miners| < MAX_MINERS
        invariant i <= |byWork| && |miners| <= MAX_MINERS && Reading(byWork, keyed, voted, MAX_MINERS, i, miners)
        invariant witnesses == Dequeued(Marked(before, miners, Miner), byWork[..i])
      {
        var n := byWork[i];
        ReadOne(byWork, keyed, voted, MAX_MINERS, i, miners);
        MineOne(before, miners, byWork[..i], n);
        if n !in voted && witnesses[n].hasKey {
          miners := miners + [n];
          witnesses := witnesses[n := witnesses[n].(kind := Miner)];
        }
        witnesses := witnesses[n := witnesses[n].(powWorker := 0)];
        i := i + 1;
      }
      ReadAll(byWork, keyed, voted, MAX_MINERS, i, miners);
    }

    /** The witnesses next in virtual time fill the round. `processed` of them are passed, and virtual time moves on
        to the last one passed. */
    method SelectTimeshare(bySchedule: seq<Name>, chosen: seq<Name>)
      returns (picked: seq<Name>, processed: nat, time: nat)
      requires (forall n :: n in bySchedule ==> n in witnesses) && |chosen| <= MAX_WITNESSES
      modifies this`witnesses
      ensures var keyed, cap := Keyed(old(witnesses)), MAX_WITNESSES - |chosen|;
              && picked == Choose(bySchedule, keyed, chosen, cap, |bySchedule|)
              && processed == ReadUntil(bySchedule, keyed, chosen, cap, 0)
      ensures witnesses == Marked(old(witnesses), picked, Timeshare)
      ensures time == LastTime(bySchedule, old(witnesses), clock, processed)
    {
      hide Choose, ReadUntil, Reading, Marked;
      ghost var before, keyed, cap := witnesses, Keyed(witnesses), MAX_WITNESSES - |chosen|;
      picked, processed, time := [], 0, clock;
      StartReading(bySchedule, keyed, chosen, cap);
      MarkNone(before, Timeshare);
      while processed < |bySchedule| && |chosen| + |picked| < MAX_WITNESSES
        invariant processed <= |bySchedule| && |picked| <= cap
        invariant Reading(bySchedule, keyed, chosen, cap, processed, picked)
        invariant witnesses == Marked(before, picked, Timeshare)
        invariant time == LastTime(bySchedule, before, clock, processed)
      {
        var n := bySchedule[processed];
        ReadOne(bySchedule, keyed, chosen, cap, processed, picked);
        MarkOne(before, picked, Timeshare, n);
        time := witnesses[n].scheduled;
        processed := processed + 1;
        if witnesses[n].hasKey && n !in chosen {
          picked := picked + [n];
          witnesses := witnesses[n := witnesses[n].(kind := Timeshare)];
        }
      }
      ReadAll(bySchedule, keyed, chosen, cap, processed, picked);
    }

    /** Everyone passed starts a new lap at the new time; stops at the first who would wrap around. */
    method StartLaps(passed: seq<Name>, time: nat) returns (overflow: bool)
      requires time < TWO_128 && forall n :: n in passed ==> n in witnesses
      modifies this`witnesses
      ensures overflow <==> Overflows(old(witnesses), passed, time)
      ensures !overflow ==> witnesses == Lapped(old(witnesses), passed, time)
      ensures Restarted(witnesses) == Restarted(old(witnesses))
    {
      hide LapTime, Wrap, Lapped, Restarted;
      ghost var before := witnesses;
      LapNone(before, time);
      for i := 0 to |passed|
        invariant witnesses == Lapped(before, passed[..i], time) && Restarted(witnesses) == Restarted(before)
        invariant !Overflows(before, passed[..i], time)
      {
        var n := passed[i];
        assert passed[..i + 1] == passed[..i] + [n];
        LapOne(before, passed[..i], time, n);
        var scheduled := Wrap(time + LapTime(witnesses[n].votes));
        Wrapped(time, LapTime(witnesses[n].votes));
        if scheduled < time {
          return true;
        }
        witnesses := witnesses[n := witnesses[n].(position := 0, lastUpdate := time, scheduled := scheduled)];
      }
      assert passed[..|passed|] == passed;
      overflow := false;
    }

    /** reset_virtual_schedule_time: virtual time starts over for everyone. */
    method ResetTime()
      modifies this`witnesses
      ensures witnesses == Restarted(old(witnesses))
    {
      hide LapTime;
      var left := witnesses.Keys;
      while left != {}
        invariant witnesses.Keys == old(witnesses).Keys && left <= witnesses.Keys
        invariant forall n :: n in witnesses ==>
                    witnesses[n] == (if n in left then old(witnesses)[n] else NewLap(old(witnesses)[n], 0))
        decreases |left|
      {
        var n :| n in left;
        witnesses :=
            witnesses[n := witnesses[n].(position := 0, lastUpdate := 0, scheduled := LapTime(witnesses[n].votes))];
        left := left - {n};
      }
    }

    /** The new round is written down and shuffled in place; positions beyond it are cleared. */
    method SetRound(active: seq<Name>, now: nat)
      requires |active| <= MAX_WITNESSES && shuffled.Length == MAX_WITNESSES
      modifies this`count, shuffled
      ensures var round := if active == [] then [""] else active;
              count == |round| && shuffled[..count] == Shuffled(round, KeyAt(now), count)
      ensures forall i :: count <= i < MAX_WITNESSES ==> shuffled[i] == ""
    {
      hide Shuffled, KeyAt;
      forall i | 0 <= i < |active| {
        shuffled[i] := active[i];
      }
      forall i | |active| <= i < MAX_WITNESSES {
        shuffled[i] := "";
      }
      count := if |active| > 1 then |active| else 1;
      assert shuffled[..count] == if active == [] then [""] else active;
      Shuffle(KeyAt(now));
    }

    /** Position i changes places with one at or after it, chosen by the key for i. */
    method Shuffle(key: nat -> nat)
      requires 0 < count <= MAX_WITNESSES && shuffled.Length == MAX_WITNESSES
      modifies shuffled
      ensures shuffled[..count] == Shuffled(old(shuffled[..count]), key, count)
      ensures shuffled[count..] == old(shuffled[count..])
    {
      hide Swapped, Target;
      for i := 0 to count
        invariant shuffled[..count] == Shuffled(old(shuffled[..count]), key, i)
        invariant shuffled[count..] == old(shuffled[count..])
      {
        Swap(i, Target(i, key(i), count));
      }
    }

    method Swap(i: nat, j: nat)
      requires i < count <= shuffled.Length && j < count
      modifies shuffled
      ensures shuffled[..count] == Swapped(old(shuffled[..count]), i, j) && shuffled[count..] == old(shuffled[count..])
    {
      shuffled[i], shuffled[j] := shuffled[j], shuffled[i];
    }

    /** update_witness_schedule4: the next round is the planned one, shuffled; a round that is too small is refused, and
        that happens exactly when fewer than 21 witnesses have a key and another one has none. Nobody is left behind the
        clock, which goes back only when virtual time starts over for everyone. */
    method UpdateSchedule(byVote: seq<Name>, byWork: seq<Name>, bySchedule: seq<Name>, now: nat, headNum: nat)
      returns (ok: bool)
      requires Valid() && Indexed(byVote, byWork, bySchedule, witnesses)
      modifies this`witnesses, this`clock, this`count, shuffled
      ensures Valid()
      ensures ok <==>
                headNum <= 14400 || |Keyed(old(witnesses))| >= MAX_WITNESSES ||
                  Keyed(old(witnesses)) == old(witnesses).Keys
      ensures !ok ==>
                witnesses == old(witnesses) && clock == old(clock) && count == old(count) &&
                  shuffled[..] == old(shuffled[..])
      ensures ok ==> var p := Planned(byVote, byWork, bySchedule, old(witnesses), old(clock));
                     var round := if p.Round() == [] then [""] else p.Round();
                     && (witnesses, clock) == Raced(old(witnesses), p)
                     && count == |round| && shuffled[..count] == Shuffled(round, KeyAt(now), count)
                     && multiset(shuffled[..count]) == multiset(round)
      ensures clock >= old(clock) || (clock == 0 && witnesses == Restarted(witnesses))
    {
      hide Indexed, OnTime, LapTime, Planned, Raced, Keyed, Restarted, Shuffled, KeyAt;
      var saved := witnesses;
      NextRound(byVote, byWork, bySchedule, saved, clock);
      var active, time := Race(byVote, byWork, bySchedule);
      if headNum > 14400 && |active| != (if |witnesses| < MAX_WITNESSES then |witnesses| else MAX_WITNESSES) {
        witnesses := saved;
        return false;
      }
      SetRound(active, now);
      ShuffleKeeps(if active == [] then [""] else active, KeyAt(now), count);
      clock := time;
      ok := true;
    }

    /** The choice of the round and the new virtual time. */
    method Race(byVote: seq<Name>, byWork: seq<Name>, bySchedule: seq<Name>) returns (active: seq<Name>, time: nat)
      requires clock < TWO_128 && OnTime(witnesses, clock) && Indexed(byVote, byWork, bySchedule, witnesses)
      modifies this`witnesses
      ensures var p := Planned(byVote, byWork, bySchedule, old(witnesses), clock);
              active == p.Round() && (witnesses, time) == Raced(old(witnesses), p)
    {
      hide Keyed, OnTime, LapTime, Marked, Dequeued, Choose, ReadUntil, Lapped, Restarted;
      ghost var before := witnesses;
      ghost var p := Planned(byVote, byWork, bySchedule, before, clock);
      ChosenRace(before, p);
      var voted := SelectVoted(byVote);
      MarkedRace(before, voted, Top19);
      var miners := SelectMiners(byWork, voted);
      MinedRace(before, voted, miners, p.looked);
      var picked: seq<Name>, processed: nat;
      picked, processed, time := SelectTimeshare(bySchedule, voted + miners);
      active := voted + miners + picked;
      TimeMoves(bySchedule, before, clock, processed);
      var overflow := StartLaps(bySchedule[..processed], time);
      if overflow {
        time := 0;
        ResetTime();
      }
    }
  }

  lemma StartReading(order: seq<Name>, keyed: set<Name>, excluded: seq<Name>, cap: nat)
    ensures Reading(order, keyed, excluded, cap, 0, [])
  {
  }

  lemma MarkNone(ws: Witnesses, kind: Kind)
    ensures Marked(ws, [], kind) == ws
  {
  }

  lemma MarkOne(ws: Witnesses, names: seq<Name>, kind: Kind, n: Name)
    requires n in ws
    ensures var before := Marked(ws, names, kind);
            && n in before && before[n].hasKey == (n in Keyed(ws)) && before[n].scheduled == ws[n].scheduled
            && Marked(ws, names + [n], kind) == before[n := before[n].(kind := kind)]
  {
  }

  lemma MineNone(ws: Witnesses)
    ensures Dequeued(Marked(ws, [], Miner), []) == ws
  {
  }

  lemma MineOne(ws: Witnesses, miners: seq<Name>, looked: seq<Name>, n: Name)
    requires n in ws
    ensures var before := Dequeued(Marked(ws, miners, Miner), looked);
            && n in before && before[n].hasKey == (n in Keyed(ws))
            && Dequeued(Marked(ws, miners, Miner), looked + [n]) == before[n := before[n].(powWorker := 0)]
            && Dequeued(Marked(ws, miners + [n], Miner), looked + [n]) ==
                 before[n := before[n].(kind := Miner, powWorker := 0)]
  {
    MarkOne(ws, miners, Miner, n);
  }

  lemma LapNone(ws: Witnesses, time: nat)
    ensures Lapped(ws, [], time) == ws
  {
  }

  lemma LapOne(ws: Witnesses, names: seq<Name>, time: nat, n: Name)
    requires n in ws
    ensures var before := Lapped(ws, names, time);
            && n in before && before[n].votes == ws[n].votes
            && Lapped(ws, names + [n], time) == before[n := NewLap(before[n], time)]
            && Restarted(before[n := NewLap(before[n], time)]) == Restarted(before)
  {
  }

  lemma MarkedRace(ws: Witnesses, names: seq<Name>, kind: Kind)
    ensures Marked(ws, names, kind).Keys == ws.Keys && Keyed(Marked(ws, names, kind)) == Keyed(ws)
  {
  }

  lemma MinedRace(ws: Witnesses, voted: seq<Name>, miners: seq<Name>, looked: seq<Name>)
    ensures var mined := Dequeued(Marked(Marked(ws, voted, Top19), miners, Miner), looked);
            && mined.Keys == ws.Keys && Keyed(mined) == Keyed(ws) && forall n :: n in ws ==>
                 mined[n].scheduled == ws[n].scheduled
  {
  }

  /** The plan meets the demands of UpdateSchedule. */
  lemma NextRound(byVote: seq<Name>, byWork: seq<Name>, bySchedule: seq<Name>, ws: Witnesses, clock: nat)
    requires Indexed(byVote, byWork, bySchedule, ws) && OnTime(ws, clock) && clock < TWO_128
    ensures forall n :: n in bySchedule ==> n in ws
    ensures var p := Planned(byVote, byWork, bySchedule, ws, clock);
            var (after, time) := Raced(ws, p);
            && |p.Round()| <= MAX_WITNESSES && |after| == |ws| && OnTime(after, time) && time < TWO_128
            && (clock <= time || (time == 0 && after == Restarted(after)))
            && (|p.Round()| == (if |ws| < MAX_WITNESSES then |ws| else MAX_WITNESSES) <==>
                |Keyed(ws)| >= MAX_WITNESSES || Keyed(ws) == ws.Keys)
  {
    hide Indexed, OnTime, Distinct, LapTime, Planned, Keyed, Chosen, Lapped;
    InSchedule(byVote, byWork, bySchedule, ws);
    RoundSize(byVote, byWork, bySchedule, ws, clock);
    RaceOnTime(byVote, byWork, bySchedule, ws, clock);
    SomeKeyless(ws);
    var p := Planned(byVote, byWork, bySchedule, ws, clock);
    assert |Raced(ws, p).0.Keys| == |ws.Keys|;
    RestartTwice(Chosen(ws, p));
  }

  lemma SomeKeyless(ws: Witnesses)
    ensures Keyed(ws) <= ws.Keys && |Keyed(ws)| <= |ws|
    ensures |Keyed(ws)| == |ws| <==> Keyed(ws) == ws.Keys
  {
    Within(Keyed(ws), ws.Keys);
    if Keyed(ws) != ws.Keys {
      var n :| n in ws.Keys && n !in Keyed(ws);
      Within(Keyed(ws), ws.Keys - {n});
    }
  }

  lemma RestartTwice(ws: Witnesses)
    ensures Restarted(Restarted(ws)) == Restarted(ws)
  {
  }

  function Swapped(s: seq<Name>, i: nat, j: nat): seq<Name>
    requires i < |s| && j < |s|
  {
    s[i := s[j]][j := s[i]]
  }

  lemma SwapKeeps(s: seq<Name>, i: nat, j: nat)
    requires i < |s| && j < |s|
    ensures multiset(Swapped(s, i, j)) == multiset(s)
  {
  }

  /** A position at or after i. */
  function Target(i: nat, key: nat, count: nat): (r: nat)
    requires i < count
    ensures i <= r < count
  {
    i + key % (count - i)
  }

  /** The first n positions have been settled. */
  function Shuffled(s: seq<Name>, key: nat -> nat, n: nat): (r: seq<Name>)
    requires n <= |s|
    ensures |r| == |s|
  {
    if n == 0 then s else Swapped(Shuffled(s, key, n - 1), n - 1, Target(n - 1, key(n - 1), |s|))
  }

  /** Whatever the keys, the shuffled round is the round in another order. */
  lemma {:induction false} ShuffleKeeps(s: seq<Name>, key: nat -> nat, n: nat)
    requires n <= |s|
    ensures multiset(Shuffled(s, key, n)) == multiset(s)
  {
    hide Swapped, Target;
    if n > 0 {
      ShuffleKeeps(s, key, n - 1);
      SwapKeeps(Shuffled(s, key, n - 1), n - 1, Target(n - 1, key(n - 1), |s|));
    }
  }

  /** Every order of the round can come out: no witness is tied to a place. */
  lemma EveryOrderPossible(s: seq<Name>, t: seq<Name>)
    requires multiset(s) == multiset(t)
    ensures exists key: nat -> nat :: Shuffled(s, key, |s|) == t
  {
    SameLength(s, t);
    var key := SomeKey(s, t, |s|);
    assert Shuffled(s, key, |s|)[..|s|] == Shuffled(s, key, |s|) && t[..|s|] == t;
  }

  lemma SameLength(s: seq<Name>, t: seq<Name>)
    requires multiset(s) == multiset(t)
    ensures |s| == |t|
  {
    assert |multiset(s)| == |s| && |multiset(t)| == |t|;
  }

  /** Keys for the first n places: each brings forward the witness that belongs there. */
  lemma {:induction false} SomeKey(s: seq<Name>, t: seq<Name>, n: nat) returns (key: nat -> nat)
    requires multiset(s) == multiset(t) && n <= |s| == |t|
    ensures Shuffled(s, key, n)[..n] == t[..n]
  {
    hide Shuffled, Target, Swapped;
    if n == 0 {
      key := _ => 0;
    } else {
      var before := SomeKey(s, t, n - 1);
      var r := Shuffled(s, before, n - 1);
      ShuffleKeeps(s, before, n - 1);
      var j := StillBehind(r, t, n - 1);
      key := i => if i == n - 1 then j - (n - 1) else before(i);
      SameKeys(s, before, key, n - 1);
      TargetReaches(n - 1, j, |s|);
      Placed(r, t, n - 1, j);
      LastPlace(s, key, n);
    }
  }

  lemma LastPlace(s: seq<Name>, key: nat -> nat, n: nat)
    requires 0 < n <= |s|
    ensures Shuffled(s, key, n) == Swapped(Shuffled(s, key, n - 1), n - 1, Target(n - 1, key(n - 1), |s|))
  {
  }

  lemma TargetReaches(i: nat, j: nat, count: nat)
    requires i <= j < count
    ensures Target(i, j - i, count) == j
  {
  }

  lemma Placed(r: seq<Name>, t: seq<Name>, n: nat, j: nat)
    requires n <= j < |r| == |t| && r[..n] == t[..n] && r[j] == t[n]
    ensures Swapped(r, n, j)[..n + 1] == t[..n + 1]
  {
    assert forall i :: 0 <= i < n ==> r[i] == r[..n][i] && t[i] == t[..n][i];
  }

  lemma {:induction false} SameKeys(s: seq<Name>, a: nat -> nat, b: nat -> nat, n: nat)
    requires n <= |s| && forall i: nat :: i < n ==> a(i) == b(i)
    ensures Shuffled(s, a, n) == Shuffled(s, b, n)
  {
    if n > 0 {
      SameKeys(s, a, b, n - 1);
    }
  }

  lemma StillBehind(r: seq<Name>, t: seq<Name>, n: nat) returns (j: nat)
    requires multiset(r) == multiset(t) && n < |r| == |t| && r[..n] == t[..n]
    ensures n <= j < |r| && r[j] == t[n]
  {
    assert r == r[..n] + r[n..] && t == t[..n] + t[n..];
    assert multiset(r) == multiset(r[..n]) + multiset(r[n..]);
    assert multiset(t) == multiset(t[..n]) + multiset(t[n..]);
    assert multiset(r[n..]) == multiset(r) - multiset(r[..n]) == multiset(t) - multiset(t[..n]) == multiset(t[n..]);
    assert t[n..][0] == t[n];
    assert t[n] in multiset(t[n..]);
    assert t[n] in r[n..];
    var i :| 0 <= i < |r[n..]| && r[n..][i] == t[n];
    j := n + i;
  }

  function KeyAt(now: nat): nat -> nat {
    i => ShuffleKey(now, i)
  }

  /** The xorshift generator that seeds the shuffle, in 64-bit arithmetic. */
  function ShuffleKey(now: nat, i: nat): nat {
    var seed := ((now % 0x1_0000_0000) as bv64 << 32) + (i % 0x1_0000_0000) as bv64 * 2685821657736338717;
    var k := seed ^ (seed >> 12);
    var l := k ^ (k << 25);
    ((l ^ (l >> 27)) * 2685821657736338717) as nat
  }
}
