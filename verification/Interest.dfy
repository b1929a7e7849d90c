/** Interest on dollars (adjust_sbd_balance, adjust_savings_balance): what it comes to over a whole history of a
    balance, however often the balance was touched in between. */
module Interest {
  import opened Common
  import opened Arith
  import opened LedgerState

  /** A change of a balance, at the time and under the conditions of `env`. */
  datatype Change = Change(env: Env, delta: int)

  /** The area under a balance over time: dollars times seconds. */
  ghost function Area(balance: int, since: int, changes: seq<Change>, until: int): int
    decreases |changes|
  {
    if changes == [] then balance * (until - since)
    else
      var t := changes[0].env.now;
      balance * (t - since) + Area(balance + changes[0].delta, t, changes[1..], until)
  }

  /** The changes come one after another, none so late that interest falls due. */
  ghost predicate Early(changes: seq<Change>, since: int, paid: int, until: int)
    decreases |changes|
  {
    if changes == [] then since <= until
    else
      var t := changes[0].env.now;
      since <= t <= paid + COMPOUND_INTERVAL && Early(changes[1..], t, paid, until)
  }

  function Touched(h: Holder, changes: seq<Change>): Holder
    decreases |changes|
  {
    if changes == [] then h else Touched(Adjust(h, changes[0].delta, false, changes[0].env), changes[1..])
  }

  function TouchedSaved(h: Holder, changes: seq<Change>): Holder
    decreases |changes|
  {
    if changes == [] then h else TouchedSaved(AdjustSaved(h, changes[0].delta, false, changes[0].env), changes[1..])
  }

  lemma TickedAdds(balance: int, c: Clock, now: int)
    ensures Ticked(balance, c, now) == Clock(c.seconds + balance * (now - c.updated), now, c.paid)
  {
  }

  /** The clock holds the area under the balance since interest was last paid. */
  lemma {:induction false} ClockHoldsArea(h: Holder, changes: seq<Change>, now: int)
    requires Early(changes, h.sbdClock.updated, h.sbdClock.paid, now)
    ensures var k := Touched(h, changes);
            && Ticked(k.sbd, k.sbdClock, now).seconds ==
                 h.sbdClock.seconds + Area(h.sbd, h.sbdClock.updated, changes, now)
            && k.sbdClock.paid == h.sbdClock.paid && k.sbdClock.updated <= now
    decreases |changes|
  {
    if changes == [] {
      TickedAdds(h.sbd, h.sbdClock, now);
    } else {
      TickedAdds(h.sbd, h.sbdClock, changes[0].env.now);
      ClockHoldsArea(Adjust(h, changes[0].delta, false, changes[0].env), changes[1..], now);
    }
  }

  lemma {:induction false} SavingsClockHoldsArea(h: Holder, changes: seq<Change>, now: int)
    requires Early(changes, h.savingsClock.updated, h.savingsClock.paid, now)
    ensures var k := TouchedSaved(h, changes);
            && Ticked(k.savingsSbd, k.savingsClock, now).seconds
               == h.savingsClock.seconds + Area(h.savingsSbd, h.savingsClock.updated, changes, now)
            && k.savingsClock.paid == h.savingsClock.paid && k.savingsClock.updated <= now
    decreases |changes|
  {
    if changes == [] {
      TickedAdds(h.savingsSbd, h.savingsClock, now);
    } else {
      TickedAdds(h.savingsSbd, h.savingsClock, changes[0].env.now);
      SavingsClockHoldsArea(AdjustSaved(h, changes[0].delta, false, changes[0].env), changes[1..], now);
    }
  }

  /** Interest is the yearly rate on the area under the balance since it was last paid, rounded down once. It is paid at
      a later second than the last change, once more than the compounding interval has gone by. */
  lemma InterestOnArea(h: Holder, changes: seq<Change>, env: Env)
    requires Early(changes, h.sbdClock.updated, h.sbdClock.paid, env.now)
    ensures var k, area := Touched(h, changes), h.sbdClock.seconds + Area(h.sbd, h.sbdClock.updated, changes, env.now);
            if env.feesOn && k.sbdClock.updated < env.now && area > 0 && env.now > h.sbdClock.paid + COMPOUND_INTERVAL
            then IsFloor(SbdInterest(k, env), area * env.rate, SECONDS_PER_YEAR * HUNDRED_PERCENT)
            else SbdInterest(k, env) == 0
  {
    ClockHoldsArea(h, changes, env.now);
    var area := h.sbdClock.seconds + Area(h.sbd, h.sbdClock.updated, changes, env.now);
    FloorIs(area * env.rate, SECONDS_PER_YEAR * HUNDRED_PERCENT);
  }

  /** In savings the area is first rounded down to whole dollar-years. */
  lemma SavingsInterestOnArea(h: Holder, changes: seq<Change>, env: Env, years: int)
    requires Early(changes, h.savingsClock.updated, h.savingsClock.paid, env.now)
    requires IsFloor(years, h.savingsClock.seconds + Area(h.savingsSbd, h.savingsClock.updated, changes, env.now),
                     SECONDS_PER_YEAR)
    ensures var k := TouchedSaved(h, changes);
            var area := h.savingsClock.seconds + Area(h.savingsSbd, h.savingsClock.updated, changes, env.now);
            if k.savingsClock.updated < env.now && area > 0 && env.now > h.savingsClock.paid + COMPOUND_INTERVAL
            then IsFloor(SavingsInterest(k, env), years * env.rate, HUNDRED_PERCENT)
            else SavingsInterest(k, env) == 0
  {
    SavingsClockHoldsArea(h, changes, env.now);
    var area := h.savingsClock.seconds + Area(h.savingsSbd, h.savingsClock.updated, changes, env.now);
    FloorUnique(years, area, SECONDS_PER_YEAR);
    FloorIs(years * env.rate, HUNDRED_PERCENT);
  }

  /** A balance left alone for a year earns the yearly rate. */
  lemma YearlyRate(h: Holder, env: Env)
    requires h.sbd > 0 && env.feesOn
    requires h.sbdClock == Clock(0, env.now - SECONDS_PER_YEAR, env.now - SECONDS_PER_YEAR)
    ensures IsFloor(SbdInterest(h, env), h.sbd * env.rate, HUNDRED_PERCENT)
  {
    InterestOnArea(h, [], env);
    var q, y := SbdInterest(h, env), SECONDS_PER_YEAR;
    assert y * (HUNDRED_PERCENT * q) <= y * (h.sbd * env.rate) < y * (HUNDRED_PERCENT * (q + 1));
  }
}
