/** The tokens a block creates and how they are divided (process_funds). */
module Inflation {
  import opened Common
  import opened Arith

  /** STEEMIT_BLOCKS_PER_YEAR */
  const BLOCKS_PER_YEAR: nat := 10_512_000

  /** 15.15% of the virtual supply a year at first, 0.01% less every 250000 blocks, at least 0.95%. */
  function InflationRate(headBlock: nat): nat {
    if 1515 - headBlock / 250_000 > 95 then 1515 - headBlock / 250_000 else 95
  }

  function NewTokens(virtualSupply: nat, headBlock: nat): nat {
    virtualSupply * InflationRate(headBlock) / (HUNDRED_PERCENT * BLOCKS_PER_YEAR)
  }

  function ContentShare(minted: nat): nat {
    minted * 6667 / HUNDRED_PERCENT
  }

  function VestingShare(minted: nat): nat {
    minted * 2667 / HUNDRED_PERCENT
  }

  /** The rest, times the number of witnesses and the producer's weight, over the normalization factor. */
  function WitnessShare(minted: nat, weight: nat, factor: nat): int
    requires factor > 0
  {
    (minted - ContentShare(minted) - VestingShare(minted)) * 21 * weight / factor
  }

  lemma SharesOfInflation(minted: nat, weight: nat, factor: nat)
    requires factor > 0
    ensures ContentShare(minted) + VestingShare(minted) <= minted && WitnessShare(minted, weight, factor) >= 0
  {
    var rest := minted - ContentShare(minted) - VestingShare(minted);
    MulMono(0, rest * 21, weight);
    FloorAtLeast(rest * 21 * weight, factor, 0);
  }

  /** The yearly rate starts at 15.15%, falls by 0.01% every 250000 blocks and stays at 0.95% from block 355000000
      on. */
  lemma InflationNarrows(headBlock: nat)
    ensures 95 <= InflationRate(headBlock) <= 1515
    ensures if headBlock < 355_000_000 then IsFloor(1515 - InflationRate(headBlock), headBlock, 250_000)
            else InflationRate(headBlock) == 95
  {
    FloorIs(headBlock, 250_000);
  }

  lemma InflationNeverRises(a: nat, b: nat)
    requires a <= b
    ensures InflationRate(b) <= InflationRate(a)
  {
    InflationNarrows(a);
    InflationNarrows(b);
  }

  /** A year of blocks creates the yearly rate of the virtual supply, rounded down at each block; content and the
      vesting fund get 66.67% and 26.67% of it, rounded down. */
  lemma InflationDivided(virtualSupply: nat, headBlock: nat)
    ensures var minted := NewTokens(virtualSupply, headBlock);
            && IsFloor(minted, virtualSupply * InflationRate(headBlock), HUNDRED_PERCENT * BLOCKS_PER_YEAR)
            && IsFloor(ContentShare(minted), minted * 6667, HUNDRED_PERCENT)
            && IsFloor(VestingShare(minted), minted * 2667, HUNDRED_PERCENT)
  {
    var minted := NewTokens(virtualSupply, headBlock);
    FloorIs(virtualSupply * InflationRate(headBlock), HUNDRED_PERCENT * BLOCKS_PER_YEAR);
    FloorIs(minted * 6667, HUNDRED_PERCENT);
    FloorIs(minted * 2667, HUNDRED_PERCENT);
  }

  // ----- a round of producers -----

  function RoundPay(minted: nat, weights: seq<nat>, factor: nat): int
    requires factor > 0
  {
    if weights == [] then 0
    else RoundPay(minted, weights[..|weights| - 1], factor) + WitnessShare(minted, weights[|weights| - 1], factor)
  }

  function WeightSum(weights: seq<nat>): nat {
    if weights == [] then 0 else WeightSum(weights[..|weights| - 1]) + weights[|weights| - 1]
  }

  /** Each producer is paid in proportion to its weight: together they get what their weights claim, less at most one
      rounding each. */
  lemma {:induction false} PaidByWeight(minted: nat, weights: seq<nat>, factor: nat)
    requires factor > 0
    ensures var claim := (minted - ContentShare(minted) - VestingShare(minted)) * 21 * WeightSum(weights);
            var paid := RoundPay(minted, weights, factor);
            factor * paid <= claim <= factor * (paid + |weights|)
  {
    if weights != [] {
      var before, w := weights[..|weights| - 1], weights[|weights| - 1];
      PaidByWeight(minted, before, factor);
      var rest := (minted - ContentShare(minted) - VestingShare(minted)) * 21;
      hide ContentShare, VestingShare;
      FloorIs(rest * w, factor);
      Combine(rest, WeightSum(before), w, RoundPay(minted, before, factor), WitnessShare(minted, w, factor), |before|,
              factor);
    }
  }

  lemma Combine(rest: int, sum: nat, w: nat, paid: int, share: int, n: nat, d: nat)
    requires d * paid <= rest * sum <= d * (paid + n) && IsFloor(share, rest * w, d)
    ensures d * (paid + share) <= rest * (sum + w) <= d * (paid + share + (n + 1))
  {
    assert d * (paid + share + (n + 1)) == d * (paid + n) + d * (share + 1);
  }

  /** A round of 21 producers whose weights add up to the normalization factor is paid what content and vesting left of
      21 blocks, less at most one rounding each. */
  lemma RoundPaysTheRest(minted: nat, weights: seq<nat>, factor: nat)
    requires factor > 0 && |weights| == 21 && WeightSum(weights) == factor
    ensures var rest := 21 * (minted - ContentShare(minted) - VestingShare(minted));
            rest - 21 <= RoundPay(minted, weights, factor) <= rest
  {
    PaidByWeight(minted, weights, factor);
    var rest := 21 * (minted - ContentShare(minted) - VestingShare(minted));
    var paid := RoundPay(minted, weights, factor);
    assert factor * paid == paid * factor && rest * factor == factor * rest;
    assert factor * (paid + 21) == (paid + 21) * factor;
    Cancel(paid, rest, factor);
    Cancel(rest, paid + 21, factor);
  }
}
