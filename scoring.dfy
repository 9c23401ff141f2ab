/**
 * The scoring engine: six category sums over fixed question ranges, their
 * percentages of the hard-coded maxima, and the overall total, maximum and
 * percentage.
 *
 * Answers are the 25 integer point values, entry q - 1 holding question q.
 * Percentages are exact reals: score / max * 100 with real division.
 */
module Scoring {
  import opened Catalog

  /** Sum of a sequence of points. */
  function Sum(s: seq<int>): int
  {
    if s == [] then 0 else s[0] + Sum(s[1..])
  }

  /** Summing a concatenation sums the parts. */
  lemma {:induction false} SumAppend(s: seq<int>, t: seq<int>)
    ensures Sum(s + t) == Sum(s) + Sum(t)
  {
    if s != [] {
      assert (s + t)[1..] == s[1..] + t;
      SumAppend(s[1..], t);
    } else {
      assert s + t == t;
    }
  }

  /** The raw score of a category: the sum of the answers to its questions. */
  function CategoryScore(answers: seq<int>, c: Category): int
    requires |answers| == QuestionCount
  {
    Sum(answers[First(c) - 1 .. Last(c)])
  }

  /** score / max * 100, with real (not truncating) division. */
  function Percent(score: int, max: int): real
    requires max > 0
  {
    (score as real / max as real) * 100.0
  }

  /** A percentage compares with a whole threshold as the cross-multiplied integers do. */
  lemma PercentCompare(score: int, max: int, threshold: int)
    requires max > 0
    ensures Percent(score, max) < threshold as real <==> 100 * score < threshold * max
    ensures Percent(score, max) == threshold as real <==> 100 * score == threshold * max
  {
    var p := Percent(score, max);
    assert p * max as real == 100.0 * score as real;
    if p < threshold as real {
      assert p * max as real < threshold as real * max as real;
    }
    if threshold as real < p {
      assert threshold as real * max as real < p * max as real;
    }
  }

  /** Percentage of a category. */
  function CategoryPercent(answers: seq<int>, c: Category): real
    requires |answers| == QuestionCount
  {
    Percent(CategoryScore(answers, c), MaxScore(c))
  }

  /** The overall score: the six category scores added up. */
  function TotalScore(answers: seq<int>): int
    requires |answers| == QuestionCount
  {
    CategoryScore(answers, Strategic) + CategoryScore(answers, Market)
    + CategoryScore(answers, Financial) + CategoryScore(answers, Organizational)
    + CategoryScore(answers, Legal) + CategoryScore(answers, Communications)
  }

  /** The overall maximum: the six category maxima added up. */
  const MaxTotal: nat :=
    MaxScore(Strategic) + MaxScore(Market) + MaxScore(Financial)
    + MaxScore(Organizational) + MaxScore(Legal) + MaxScore(Communications)

  /** The overall percentage. */
  function TotalPercent(answers: seq<int>): real
    requires |answers| == QuestionCount
  {
    Percent(TotalScore(answers), MaxTotal)
  }

  /**
   * The ranges partition the questions, so the total is the plain sum of all
   * 25 answers, and every answer is counted exactly once.
   */
  lemma TotalIsSumOfAnswers(answers: seq<int>)
    requires |answers| == QuestionCount
    ensures TotalScore(answers) == Sum(answers)
  {
    var a := answers;
    assert a == a[0..4] + a[4..9] + a[9..14] + a[14..19] + a[19..21] + a[21..25];
    SumAppend(a[0..4] + a[4..9] + a[9..14] + a[14..19] + a[19..21], a[21..25]);
    SumAppend(a[0..4] + a[4..9] + a[9..14] + a[14..19], a[19..21]);
    SumAppend(a[0..4] + a[4..9] + a[9..14], a[14..19]);
    SumAppend(a[0..4] + a[4..9], a[9..14]);
    SumAppend(a[0..4], a[4..9]);
  }

  /** Every answer is one of its question's option values. */
  predicate LegalAnswers(answers: seq<int>)
  {
    |answers| == QuestionCount
    && forall q :: 1 <= q <= QuestionCount ==> answers[q - 1] in Options(q)
  }

  /** With legal answers, questions lo..hi-1 score between 0 and their best sum. */
  lemma {:induction false} RangeScoreBounds(answers: seq<int>, lo: int, hi: int)
    requires LegalAnswers(answers)
    requires 1 <= lo <= hi <= QuestionCount + 1
    ensures 0 <= Sum(answers[lo - 1 .. hi - 1]) <= BestSum(lo, hi)
    decreases hi - lo
  {
    if lo < hi {
      RangeScoreBounds(answers, lo + 1, hi);
      assert answers[lo - 1 .. hi - 1][1..] == answers[lo .. hi - 1];
      OptionsNonNegative(lo, answers[lo - 1]);
      BestOptionBounds(lo, answers[lo - 1]);
    } else {
      assert answers[lo - 1 .. hi - 1] == [];
    }
  }

  /** With legal answers, each category score lies between 0 and the category maximum. */
  lemma CategoryScoreBounds(answers: seq<int>, c: Category)
    requires LegalAnswers(answers)
    ensures 0 <= CategoryScore(answers, c) <= MaxScore(c)
  {
    RangeScoreBounds(answers, First(c), Last(c) + 1);
    MaxScoreMatchesCatalog(c);
  }

  /** A score between 0 and its maximum is a percentage between 0 and 100. */
  lemma PercentBounds(score: int, max: int)
    requires 0 <= score <= max && max > 0
    ensures 0.0 <= Percent(score, max) <= 100.0
  {
    PercentCompare(score, max, 0);
    PercentCompare(score, max, 100);
  }

  /** With legal answers, every category percentage and the total percentage lie in [0, 100]. */
  lemma PercentagesInRange(answers: seq<int>)
    requires LegalAnswers(answers)
    ensures forall c :: 0.0 <= CategoryPercent(answers, c) <= 100.0
    ensures 0.0 <= TotalPercent(answers) <= 100.0
  {
    forall c: Category
      ensures 0.0 <= CategoryPercent(answers, c) <= 100.0
    {
      CategoryScoreBounds(answers, c);
      PercentBounds(CategoryScore(answers, c), MaxScore(c));
    }
    forall c: Category {
      CategoryScoreBounds(answers, c);
    }
    PercentBounds(TotalScore(answers), MaxTotal);
  }

  /** The answer set that picks the best option of every question. */
  function BestAnswers(): (a: seq<int>)
    ensures |a| == QuestionCount
  {
    seq(QuestionCount, i requires 0 <= i < QuestionCount => BestOption(i + 1))
  }

  /** Picking the best option everywhere is a legal answer set. */
  lemma BestAnswersLegal()
    ensures LegalAnswers(BestAnswers())
  {
    forall q | 1 <= q <= QuestionCount
      ensures BestAnswers()[q - 1] in Options(q)
    {
      BestOptionBounds(q, 0);
    }
  }

  /** The best answers to questions lo..hi-1 add up to their best sum. */
  lemma {:induction false} BestAnswersRange(lo: int, hi: int)
    requires 1 <= lo <= hi <= QuestionCount + 1
    ensures Sum(BestAnswers()[lo - 1 .. hi - 1]) == BestSum(lo, hi)
    decreases hi - lo
  {
    var b := BestAnswers();
    if lo < hi {
      BestAnswersRange(lo + 1, hi);
      assert b[lo - 1 .. hi - 1][1..] == b[lo .. hi - 1];
    } else {
      assert b[lo - 1 .. hi - 1] == [];
    }
  }

  /**
   * Each hard-coded maximum is attained: the best answer set scores exactly
   * the maximum in every category, and 593 in total.
   */
  lemma MaximaAttained()
    ensures forall c :: CategoryScore(BestAnswers(), c) == MaxScore(c)
    ensures TotalScore(BestAnswers()) == MaxTotal == 593
  {
    forall c: Category
      ensures CategoryScore(BestAnswers(), c) == MaxScore(c)
    {
      BestAnswersRange(First(c), Last(c) + 1);
      MaxScoreMatchesCatalog(c);
    }
  }
}
