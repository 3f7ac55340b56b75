/**
  The end-of-round message chosen by `lost` from the final score.

  The tiers are listed from least to most impressive; a score reaches tier
  `k + 1` when it exceeds `Thresholds[k]`.  The spelling of the messages is
  the game's own and is kept as is.
 */
module Appreciation {

  /** The seven tier messages, least impressive first. */
  const Tiers: seq<string> := [
    "You can do better",
    "Good for a bigginer",
    "Good",
    "Very Good",
    "exellent",
    "hacker",
    "excuse me are you a boot"
  ]

  /** The score a player must exceed to climb past each tier, in increasing order. */
  const Thresholds: seq<int> := [3, 7, 10, 15, 20, 30]

  /** `lost`: the first band (tested from the top) whose bound the score exceeds. */
  function Lost(score: int): (msg: string)
    ensures score >= 0 <==> msg in Tiers
    ensures score < 0 ==> msg == ""
  {
    if score > 30 then "excuse me are you a boot"
    else if score > 20 then "hacker"
    else if score > 15 then "exellent"
    else if score > 10 then "Very Good"
    else if score > 7 then "Good"
    else if score > 3 then "Good for a bigginer"
    else if score >= 0 then "You can do better"
    else ""
  }

  /** How many of the bounds `ts` the score strictly exceeds. */
  function Exceeded(ts: seq<int>, score: int): (n: nat)
    ensures n <= |ts|
  {
    if ts == [] then 0
    else (if score > ts[0] then 1 else 0) + Exceeded(ts[1..], score)
  }

  /** The tier a non-negative score earns: the number of thresholds it passes. */
  function Rank(score: int): (k: nat)
    ensures k < |Tiers|
  {
    Exceeded(Thresholds, score)
  }

  /** Raising the score never lowers the number of bounds it exceeds. */
  lemma {:induction false} ExceededMonotone(ts: seq<int>, a: int, b: int)
    requires a <= b
    ensures Exceeded(ts, a) <= Exceeded(ts, b)
    decreases |ts|
  {
    if ts != [] {
      ExceededMonotone(ts[1..], a, b);
    }
  }

  /** Over increasing bounds, a score exceeds exactly the bounds of a prefix. */
  lemma {:induction false} ExceededSorted(ts: seq<int>, score: int, k: nat)
    requires forall i, j :: 0 <= i < j < |ts| ==> ts[i] < ts[j]
    requires k <= |ts|
    requires forall i :: 0 <= i < k ==> score > ts[i]
    requires forall i :: k <= i < |ts| ==> score <= ts[i]
    ensures Exceeded(ts, score) == k
    decreases |ts|
  {
    if ts != [] {
      if k == 0 {
        ExceededSorted(ts[1..], score, 0);
      } else {
        ExceededSorted(ts[1..], score, k - 1);
      }
    }
  }

  /** `lost` agrees with the threshold-counting definition of the tiers for every non-negative score. */
  lemma LostIsRankedTier(score: int)
    requires score >= 0
    ensures Lost(score) == Tiers[Rank(score)]
  {
    var k := if score > 30 then 6 else if score > 20 then 5 else if score > 15 then 4
             else if score > 10 then 3 else if score > 7 then 2 else if score > 3 then 1 else 0;
    ExceededSorted(Thresholds, score, k);
  }

  /** The tier chosen by `lost` never goes down as the score goes up. */
  lemma LostMonotone(a: int, b: int)
    requires 0 <= a <= b
    ensures Rank(a) <= Rank(b)
    ensures Lost(a) == Tiers[Rank(a)] && Lost(b) == Tiers[Rank(b)]
  {
    ExceededMonotone(Thresholds, a, b);
    LostIsRankedTier(a);
    LostIsRankedTier(b);
  }

  /** The seven messages are pairwise distinct, so a message identifies its tier. */
  lemma TiersDistinct()
    ensures forall i, j :: 0 <= i < j < |Tiers| ==> Tiers[i] != Tiers[j]
  {
  }

  /** Each threshold is the last score of its tier: the message changes exactly one point above it. */
  lemma LostBoundaries(k: nat)
    requires k < |Thresholds|
    ensures Lost(Thresholds[k]) == Tiers[k]
    ensures Lost(Thresholds[k] + 1) == Tiers[k + 1]
  {
  }

  /** Two sample scores: 25 is "hacker", 0 is "You can do better". */
  lemma LostExamples()
    ensures Lost(25) == "hacker"
    ensures Lost(0) == "You can do better"
  {
  }
}
