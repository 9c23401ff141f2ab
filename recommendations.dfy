/**
 * The recommendation selector: of the ranked score table it takes the
 * first three rows (the weakest categories), gives each of them whose
 * percentage is below 60 its category bundle, in table order, and falls
 * back to the tier's default bundle when none qualifies.
 *
 * A bundle is a list of narrative paragraphs and a numbered plan. Their
 * text is opaque, so a bundle is identified by what it is keyed on: a tier
 * (the default bundles) or a category (the category bundles).
 */
module Recommendations {
  import opened Catalog
  import opened Readiness
  import opened Ranking

  datatype Bundle = TierDefault(tier: Tier) | ForCategory(category: Category)

  /** A category below this percentage is weak and earns its own bundle. */
  const WeakBelow: real := 60.0

  /** How many of the lowest-ranked categories are considered. */
  const Considered: nat := 3

  /** The first three rows of the table, or the whole table if it is shorter. */
  function Lowest(ranked: seq<Entry>): seq<Entry>
  {
    if |ranked| <= Considered then ranked else ranked[..Considered]
  }

  /** The rows of s below the weakness threshold, in their order in s. */
  function Weak(s: seq<Entry>): seq<Entry>
  {
    if s == [] then []
    else Weak(s[..|s| - 1]) + (if s[|s| - 1].percent < WeakBelow then [s[|s| - 1]] else [])
  }

  /** The category bundles of the given rows, in the same order. */
  function CategoryBundles(w: seq<Entry>): seq<Bundle>
  {
    seq(|w|, i requires 0 <= i < |w| => ForCategory(w[i].category))
  }

  /** The recommendations for a ranked table and the tier of the total. */
  function Recommend(ranked: seq<Entry>, tier: Tier): seq<Bundle>
  {
    var w := Weak(Lowest(ranked));
    if w == [] then [TierDefault(tier)] else CategoryBundles(w)
  }

  /**
   * Builds the recommendation list as the form handler does: one pass over
   * the first three rows, appending a category bundle for each weak row,
   * then the tier default if nothing was appended.
   */
  method SelectRecommendations(ranked: seq<Entry>, tier: Tier) returns (recs: seq<Bundle>)
    ensures recs == Recommend(ranked, tier)
  {
    var lowest := if |ranked| <= Considered then ranked else ranked[..Considered];
    recs := [];
    var k := 0;
    while k < |lowest|
      invariant 0 <= k <= |lowest|
      invariant recs == CategoryBundles(Weak(lowest[..k]))
    {
      assert lowest[..k + 1][..k] == lowest[..k];
      if lowest[k].percent < WeakBelow {
        recs := recs + [ForCategory(lowest[k].category)];
      }
      k := k + 1;
    }
    assert lowest[..k] == lowest;
    if recs == [] {
      recs := [TierDefault(tier)];
    }
  }

  /** Weak keeps exactly the rows below the threshold, and no more rows than it was given. */
  lemma {:induction false} WeakMembers(s: seq<Entry>)
    ensures |Weak(s)| <= |s|
    ensures forall e :: e in Weak(s) <==> e in s && e.percent < WeakBelow
  {
    if s != [] {
      var init := s[..|s| - 1];
      WeakMembers(init);
      assert s == init + [s[|s| - 1]];
    }
  }

  /** Weak keeps the order of a sorted table. */
  lemma {:induction false} WeakSorted(s: seq<Entry>)
    requires Sorted(s)
    ensures Sorted(Weak(s))
  {
    if s != [] {
      var init, last := s[..|s| - 1], s[|s| - 1];
      WeakSorted(init);
      WeakMembers(init);
      var w := Weak(init);
      forall i | 0 <= i < |w| ensures Precedes(w[i], last) {
        var k :| 0 <= k < |init| && init[k] == w[i];
      }
    }
  }

  /** Weak keeps categories distinct. */
  lemma {:induction false} WeakDistinct(s: seq<Entry>)
    requires DistinctCategories(s)
    ensures DistinctCategories(Weak(s))
  {
    if s != [] {
      var init, last := s[..|s| - 1], s[|s| - 1];
      WeakDistinct(init);
      WeakMembers(init);
      var w := Weak(init);
      forall i | 0 <= i < |w| ensures w[i].category != last.category {
        var k :| 0 <= k < |init| && init[k] == w[i];
      }
    }
  }

  /** There are always between one and three recommendations. */
  lemma RecommendCount(ranked: seq<Entry>, tier: Tier)
    ensures 1 <= |Recommend(ranked, tier)| <= Considered
  {
    WeakMembers(Lowest(ranked));
  }

  /**
   * The list is exactly the tier's default bundle when, and only when, no
   * row among the three lowest is below 60%.
   */
  lemma RecommendFallback(ranked: seq<Entry>, tier: Tier)
    ensures Recommend(ranked, tier) == [TierDefault(tier)]
        <==> forall e :: e in Lowest(ranked) ==> e.percent >= WeakBelow
  {
    var w := Weak(Lowest(ranked));
    WeakMembers(Lowest(ranked));
    if w != [] {
      assert w[0] in w;
      assert Recommend(ranked, tier)[0] == ForCategory(w[0].category);
    }
  }

  /**
   * Otherwise the list holds only category bundles: the i-th is the bundle
   * of the i-th weak row among the three lowest, and a row among the three
   * lowest is weak exactly when it is below 60%.
   */
  lemma RecommendWeakest(ranked: seq<Entry>, tier: Tier)
    requires exists e :: e in Lowest(ranked) && e.percent < WeakBelow
    ensures var w, r := Weak(Lowest(ranked)), Recommend(ranked, tier);
      && |r| == |w|
      && (forall i :: 0 <= i < |r| ==> r[i] == ForCategory(w[i].category))
      && (forall e :: e in w <==> e in Lowest(ranked) && e.percent < WeakBelow)
  {
    WeakMembers(Lowest(ranked));
  }

  /**
   * For a ranked table of distinct categories, the weak rows are sorted and
   * distinct, and when there are any, the recommendations are their category
   * bundles, pairwise different and in ascending order of percentage.
   */
  lemma RecommendOrdered(ranked: seq<Entry>, tier: Tier)
    requires Sorted(ranked) && DistinctCategories(ranked)
    ensures var w, r := Weak(Lowest(ranked)), Recommend(ranked, tier);
      && Sorted(w)
      && DistinctCategories(w)
      && (w != [] ==>
            && |r| == |w|
            && (forall i :: 0 <= i < |r| ==> r[i] == ForCategory(w[i].category))
            && (forall i, j :: 0 <= i < j < |r| ==> r[i] != r[j] && w[i].percent <= w[j].percent))
  {
    var low := Lowest(ranked);
    assert Sorted(low) && DistinctCategories(low);
    WeakSorted(low);
    WeakDistinct(low);
  }

  /**
   * In a table of distinct categories, no category at or above 60%, and no
   * category outside the three lowest rows, contributes a bundle.
   */
  lemma RecommendOnlyWeakest(ranked: seq<Entry>, tier: Tier, k: nat)
    requires DistinctCategories(ranked) && k < |ranked|
    requires ranked[k].percent >= WeakBelow || k >= Considered
    ensures ForCategory(ranked[k].category) !in Recommend(ranked, tier)
  {
    var low := Lowest(ranked);
    var w := Weak(low);
    WeakMembers(low);
    forall i | 0 <= i < |w|
      ensures w[i].category != ranked[k].category
    {
      assert w[i] in low;
      var j :| 0 <= j < |low| && low[j] == w[i];
      assert ranked[j] == w[i];
    }
  }
}
