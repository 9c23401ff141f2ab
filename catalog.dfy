/**
 * The static questionnaire of the IPO readiness assessment: 25 questions,
 * each with the point values of its single-select options, grouped into
 * six categories by contiguous question ranges, and the section headers
 * the form shows before the first question of each category.
 *
 * Question texts, option labels and category titles are opaque content
 * and are not modelled; only the point values and the grouping are.
 */
module Catalog {

  /** The six assessed categories, in the fixed listing order of the form. */
  datatype Category =
    | Strategic
    | Market
    | Financial
    | Organizational
    | Legal
    | Communications

  const QuestionCount: nat := 25

  /** The categories in listing order (also the order of the score table). */
  const Listing: seq<Category> :=
    [Strategic, Market, Financial, Organizational, Legal, Communications]

  /** Position of a category in the listing order. */
  function Ordinal(c: Category): (r: nat)
    ensures r < |Listing| && Listing[r] == c
  {
    match c
    case Strategic => 0
    case Market => 1
    case Financial => 2
    case Organizational => 3
    case Legal => 4
    case Communications => 5
  }

  lemma OrdinalInjective(c: Category, d: Category)
    requires Ordinal(c) == Ordinal(d)
    ensures c == d
  {
  }

  /** First question (1-based) of a category's range. */
  function First(c: Category): nat
  {
    match c
    case Strategic => 1
    case Market => 5
    case Financial => 10
    case Organizational => 15
    case Legal => 20
    case Communications => 22
  }

  /** Last question (1-based, inclusive) of a category's range. */
  function Last(c: Category): nat
  {
    match c
    case Strategic => 4
    case Market => 9
    case Financial => 14
    case Organizational => 19
    case Legal => 21
    case Communications => 25
  }

  /** The category a question is scored under. */
  function CategoryOf(q: int): (c: Category)
    requires 1 <= q <= QuestionCount
    ensures First(c) <= q <= Last(c)
  {
    if q <= 4 then Strategic
    else if q <= 9 then Market
    else if q <= 14 then Financial
    else if q <= 19 then Organizational
    else if q <= 21 then Legal
    else Communications
  }

  /**
   * The six ranges partition 1..25 in listing order: the first starts at 1,
   * each next one starts right after the previous one ends, the last ends
   * at 25, and no range is empty.
   */
  lemma RangesPartition()
    ensures First(Listing[0]) == 1 && Last(Listing[5]) == QuestionCount
    ensures forall i :: 0 <= i < 5 ==> First(Listing[i + 1]) == Last(Listing[i]) + 1
    ensures forall c :: 1 <= First(c) <= Last(c) <= QuestionCount
  {
  }

  /** No question lies in two ranges, so CategoryOf is the only category of q. */
  lemma RangeMembership(q: int, c: Category)
    requires 1 <= q <= QuestionCount
    ensures First(c) <= q <= Last(c) <==> CategoryOf(q) == c
  {
  }

  /** The hard-coded maximum attainable score of each category. */
  function MaxScore(c: Category): nat
  {
    match c
    case Strategic => 83
    case Market => 130
    case Financial => 140
    case Organizational => 90
    case Legal => 60
    case Communications => 90
  }

  /** The point values of the options of question q, in the order the form lists them. */
  function Options(q: int): (vs: seq<int>)
    requires 1 <= q <= QuestionCount
    ensures vs != []
  {
    match q
    case 1 => [20, 20, 10, 10, 0]
    case 2 => [30, 9, 0]
    case 3 => [30, 9, 9]
    case 4 => [3, 2, 1, 0]
    case 5 => [30, 30, 15, 0]
    case 6 => [20, 16, 6, 0]
    case 7 => [30, 30, 15, 0]
    case 8 => [20, 16, 6, 0]
    case 9 => [30, 24, 0]
    case 10 => [30, 15, 15, 9, 0]
    case 11 => [30, 15, 9, 0]
    case 12 => [30, 15, 9, 0]
    case 13 => [20, 20, 10, 20]
    case 14 => [30, 24, 0]
    case 15 => [10, 5, 0, 0]
    case 16 => [10, 5, 0]
    case 17 => [20, 16, 6, 0]
    case 18 => [20, 16, 0]
    case 19 => [30, 24, 0]
    case 20 => [30, 24, 15]
    case 21 => [30, 15, 0]
    case 22 => [30, 24, 15, 0]
    case 23 => [20, 10, 0]
    case 24 => [20, 10, 0]
    case _ => [20, 6, 0]  // question 25
  }

  /** The larger of two point values. */
  function Larger(a: int, b: int): int
  {
    if a >= b then a else b
  }

  /** Largest of s[i..]. */
  function MaxFrom(s: seq<int>, i: nat): int
    requires i < |s|
    decreases |s| - i
  {
    if i + 1 == |s| then s[i] else Larger(s[i], MaxFrom(s, i + 1))
  }

  /** MaxFrom picks an element of s[i..] that no element of s[i..] exceeds. */
  lemma {:induction false} MaxFromIsMaximum(s: seq<int>, i: nat)
    requires i < |s|
    ensures MaxFrom(s, i) in s[i..]
    ensures forall j :: i <= j < |s| ==> s[j] <= MaxFrom(s, i)
    decreases |s| - i
  {
    if i < |s| - 1 {
      MaxFromIsMaximum(s, i + 1);
      assert s[i + 1..] == s[i..][1..];
    }
  }

  /** Best attainable value of question q: the largest of its option values. */
  function BestOption(q: int): int
    requires 1 <= q <= QuestionCount
  {
    MaxFrom(Options(q), 0)
  }

  /** No option of question q is worth more than BestOption(q), and some option is worth exactly that. */
  lemma BestOptionBounds(q: int, v: int)
    requires 1 <= q <= QuestionCount
    ensures BestOption(q) in Options(q)
    ensures v in Options(q) ==> v <= BestOption(q)
  {
    MaxFromIsMaximum(Options(q), 0);
    assert Options(q)[0..] == Options(q);
  }

  /** Sum of the best attainable values of questions lo..hi-1. */
  function BestSum(lo: int, hi: int): int
    requires 1 <= lo <= hi <= QuestionCount + 1
    decreases hi - lo
  {
    if lo == hi then 0 else BestOption(lo) + BestSum(lo + 1, hi)
  }

  /** Every option of the catalog is worth a non-negative number of points. */
  lemma OptionsNonNegative(q: int, v: int)
    requires 1 <= q <= QuestionCount && v in Options(q)
    ensures 0 <= v
  {
  }

  /**
   * Each hard-coded category maximum is the sum of the best option values
   * of the category's questions.
   */
  lemma MaxScoreMatchesCatalog(c: Category)
    ensures MaxScore(c) == BestSum(First(c), Last(c) + 1)
  {
    match c
    case Strategic => StrategicMaximum();
    case Market => MarketMaximum();
    case Financial => FinancialMaximum();
    case Organizational => OrganizationalMaximum();
    case Legal => LegalMaximum();
    case Communications => CommunicationsMaximum();
  }

  // The best sum of each category, one lemma per category to keep each proof small.

  lemma StrategicMaximum()
    ensures BestSum(1, 5) == 83
  {
  }

  lemma MarketMaximum()
    ensures BestSum(5, 10) == 130
  {
  }

  lemma FinancialMaximum()
    ensures BestSum(10, 15) == 140
  {
  }

  lemma OrganizationalMaximum()
    ensures BestSum(15, 20) == 90
  {
  }

  lemma LegalMaximum()
    ensures BestSum(20, 22) == 60
  {
  }

  lemma CommunicationsMaximum()
    ensures BestSum(22, 26) == 90
  {
  }

  /** The section headers of the form, keyed by the question they precede. */
  const Sections: map<int, Category> := map[
    1 := Strategic,
    5 := Market,
    10 := Financial,
    15 := Organizational,
    20 := Legal,
    22 := Communications
  ]

  /**
   * A section header stands exactly before the first question of each
   * scoring range, and names the category that question is scored under.
   */
  lemma SectionsMatchRanges(q: int)
    requires 1 <= q <= QuestionCount
    ensures q in Sections <==> q == First(CategoryOf(q))
    ensures q in Sections ==> Sections[q] == CategoryOf(q)
  {
  }
}
