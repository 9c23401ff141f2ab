/**
 * The readiness classifier: the overall percentage picks one of four tiers
 * through a chain of inclusive lower bounds checked from the top down.
 * Each tier carries a fixed readiness label, a fixed general assessment and
 * a default recommendation bundle; those texts are opaque, so the tier
 * itself stands for them.
 */
module Readiness {
  import opened Scoring

  /** The four readiness tiers, from lowest to highest. */
  datatype Tier = Critical | Low | Medium | High

  /** Rank of a tier: Critical 0 < Low 1 < Medium 2 < High 3. */
  function Rank(t: Tier): nat
  {
    match t
    case Critical => 0
    case Low => 1
    case Medium => 2
    case High => 3
  }

  const HighFrom: real := 80.0
  const MediumFrom: real := 60.0
  const LowFrom: real := 40.0

  /** The tier of an overall percentage: the first bound, from the top, that it reaches. */
  function Classify(percent: real): Tier
  {
    if percent >= HighFrom then High
    else if percent >= MediumFrom then Medium
    else if percent >= LowFrom then Low
    else Critical
  }

  /**
   * Every percentage falls in exactly one band, lower bounds inclusive:
   * [80, ..) High, [60, 80) Medium, [40, 60) Low, (.., 40) Critical.
   */
  lemma ClassifyBands(percent: real)
    ensures Classify(percent) == High <==> 80.0 <= percent
    ensures Classify(percent) == Medium <==> 60.0 <= percent < 80.0
    ensures Classify(percent) == Low <==> 40.0 <= percent < 60.0
    ensures Classify(percent) == Critical <==> percent < 40.0
  {
  }

  /** A strictly larger percentage never yields a lower tier. */
  lemma ClassifyMonotone(p: real, q: real)
    requires p < q
    ensures Rank(Classify(p)) <= Rank(Classify(q))
  {
  }

  /**
   * Over the 593-point total, the bands are whole-score ranges:
   * 475.. High, 356..474 Medium, 238..355 Low, ..237 Critical.
   */
  lemma ClassifyTotal(total: int)
    ensures Classify(Percent(total, MaxTotal)) == High <==> 475 <= total
    ensures Classify(Percent(total, MaxTotal)) == Medium <==> 356 <= total <= 474
    ensures Classify(Percent(total, MaxTotal)) == Low <==> 238 <= total <= 355
    ensures Classify(Percent(total, MaxTotal)) == Critical <==> total <= 237
  {
    PercentCompare(total, MaxTotal, 80);
    PercentCompare(total, MaxTotal, 60);
    PercentCompare(total, MaxTotal, 40);
  }

  /** No whole total is exactly 80, 60 or 40 percent of 593, so no total sits on a tier boundary. */
  lemma NoTotalOnBoundary(total: int)
    ensures Percent(total, MaxTotal) != HighFrom
    ensures Percent(total, MaxTotal) != MediumFrom
    ensures Percent(total, MaxTotal) != LowFrom
  {
    PercentCompare(total, MaxTotal, 80);
    PercentCompare(total, MaxTotal, 60);
    PercentCompare(total, MaxTotal, 40);
  }
}
