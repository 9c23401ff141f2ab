/**
 * Three concrete submissions worked through the whole decision procedure:
 * every answer at its best option, every answer at 0, and a submission
 * that is best everywhere except in the legal category.
 */
module Scenarios {
  import opened Catalog
  import opened Scoring
  import opened Readiness
  import opened Ranking
  import opened Recommendations
  import opened Assessment

  /**
   * Every category at its maximum (as with every answer at its best
   * option): 593 of 593 points, 100%, tier High, and no category below 60%,
   * so the High default bundle is the only recommendation.
   */
  lemma AllBestScenario(answers: seq<int>)
    requires |answers| == QuestionCount
    requires forall c :: CategoryScore(answers, c) == MaxScore(c)
    ensures var r := Assess(answers);
      && r.totalScore == 593
      && r.totalPercent == 100.0
      && r.tier == High
      && r.recommendations == [TierDefault(High)]
  {
    assert TotalScore(answers) == MaxTotal;
    assert TotalPercent(answers) == 100.0;
    var ranked := Ranked(ScoreTable(answers));
    forall e | e in Lowest(ranked)
      ensures e.percent >= WeakBelow
    {
      assert e in ranked;
      RankedMembers(ScoreTable(answers), e);
      var i :| 0 <= i < |Listing| && ScoreTable(answers)[i] == e;
      assert CategoryScore(answers, e.category) == MaxScore(e.category);
    }
    RecommendFallback(ranked, High);
  }

  /** The best answers reach that scenario. */
  lemma BestAnswersScenario()
    ensures Assess(BestAnswers()).tier == High
    ensures Assess(BestAnswers()).recommendations == [TierDefault(High)]
  {
    MaximaAttained();
    AllBestScenario(BestAnswers());
  }

  lemma {:induction false} SumOfZeros(s: seq<int>)
    requires forall i :: 0 <= i < |s| ==> s[i] == 0
    ensures Sum(s) == 0
  {
    if s != [] {
      SumOfZeros(s[1..]);
    }
  }

  /** The table where every category stands at 0%, in listing order. */
  const ZeroRows: seq<Entry> :=
    [Entry(Strategic, 0.0), Entry(Market, 0.0), Entry(Financial, 0.0),
     Entry(Organizational, 0.0), Entry(Legal, 0.0), Entry(Communications, 0.0)]

  /** With every answer 0 each category is at 0%. */
  lemma ZeroScores(answers: seq<int>)
    requires |answers| == QuestionCount
    requires forall i :: 0 <= i < |answers| ==> answers[i] == 0
    ensures ScoreTable(answers) == ZeroRows
  {
    forall c: Category
      ensures CategoryPercent(answers, c) == 0.0
    {
      SumOfZeros(answers[First(c) - 1 .. Last(c)]);
    }
  }

  /** Ties at 0% are ranked in listing order, so that table is already ranked. */
  lemma ZeroRowsRanked()
    ensures Ranked(ZeroRows) == ZeroRows
  {
    var t := ZeroRows;
    assert t[5..][1..] == [];
    assert Ranked(t[5..]) == t[5..];
    assert t[4..] == [t[4]] + t[5..] && t[4..][1..] == t[5..];
    assert Ranked(t[4..]) == t[4..];
    assert t[3..] == [t[3]] + t[4..] && t[3..][1..] == t[4..];
    assert Ranked(t[3..]) == t[3..];
    assert t[2..] == [t[2]] + t[3..] && t[2..][1..] == t[3..];
    assert Ranked(t[2..]) == t[2..];
    assert t[1..] == [t[1]] + t[2..] && t[1..][1..] == t[2..];
    assert Ranked(t[1..]) == t[1..];
    assert t == [t[0]] + t[1..];
  }

  /**
   * Every answer 0: tier Critical; all six categories tie at 0%, so the
   * three weakest are the first three in listing order, and each gets its
   * category bundle. The form cannot produce this submission, since
   * questions 3, 13 and 20 offer no 0-point option, but the handler accepts
   * it as a hand-crafted request, because it does not check answers against
   * the offered options.
   */
  lemma AllZeroScenario(answers: seq<int>)
    requires |answers| == QuestionCount
    requires forall i :: 0 <= i < |answers| ==> answers[i] == 0
    ensures var r := Assess(answers);
      && r.totalScore == 0
      && r.tier == Critical
      && r.recommendations == [ForCategory(Strategic), ForCategory(Market), ForCategory(Financial)]
  {
    SumOfZeros(answers);
    TotalIsSumOfAnswers(answers);
    AssessTier(answers);
    ZeroScores(answers);
    ZeroRowsRanked();
    var low := ZeroRows[..3];
    assert Lowest(Ranked(ScoreTable(answers))) == low;
    assert Weak(low[..1]) == low[..1];
    assert Weak(low[..2]) == low[..2];
    assert Weak(low) == low;
  }

  /** A category's percentage when its score is at its maximum. */
  lemma FullPercent(answers: seq<int>, c: Category)
    requires |answers| == QuestionCount
    requires CategoryScore(answers, c) == MaxScore(c)
    ensures CategoryPercent(answers, c) == 100.0
  {
  }

  /** The table with every category at 100% except legal, at p. */
  function GapRows(p: real): seq<Entry>
  {
    [Entry(Strategic, 100.0), Entry(Market, 100.0), Entry(Financial, 100.0),
     Entry(Organizational, 100.0), Entry(Legal, p), Entry(Communications, 100.0)]
  }

  /** Legal, below 100%, ranks first; the others keep listing order. */
  lemma GapRanked(p: real)
    requires p < 100.0
    ensures Ranked(GapRows(p)) ==
      [Entry(Legal, p), Entry(Strategic, 100.0), Entry(Market, 100.0),
       Entry(Financial, 100.0), Entry(Organizational, 100.0), Entry(Communications, 100.0)]
  {
    var t := GapRows(p);
    var s, m, f, o, l, c := t[0], t[1], t[2], t[3], t[4], t[5];
    assert Ranked(t[5..]) == [c] by {
      assert t[5..][1..] == [];
    }
    assert t[4..][1..] == t[5..];
    assert Ranked(t[4..]) == [l, c];
    assert t[3..][1..] == t[4..];
    assert Insert(o, [c]) == [o, c];
    assert Ranked(t[3..]) == [l, o, c];
    assert t[2..][1..] == t[3..];
    assert Insert(f, [o, c]) == [f, o, c];
    assert Ranked(t[2..]) == [l, f, o, c];
    assert t[1..][1..] == t[2..];
    assert Insert(m, [f, o, c]) == [m, f, o, c];
    assert Ranked(t[1..]) == [l, m, f, o, c];
    assert Insert(s, [m, f, o, c]) == [s, m, f, o, c];
    assert Ranked(t) == [l, s, m, f, o, c];
  }

  /**
   * Best everywhere except the legal category, which is below 60% of its
   * maximum: the total is at least 533 of 593, so the tier is High, yet the
   * legal bundle alone is recommended, since selection looks at the weakest
   * categories and not at the tier.
   */
  lemma LegalGapScenario(answers: seq<int>)
    requires |answers| == QuestionCount
    requires forall c :: c != Legal ==> CategoryScore(answers, c) == MaxScore(c)
    requires 0 <= CategoryScore(answers, Legal) < 36
    ensures Assess(answers).tier == High
    ensures Assess(answers).recommendations == [ForCategory(Legal)]
  {
    var p := CategoryPercent(answers, Legal);
    PercentCompare(CategoryScore(answers, Legal), MaxScore(Legal), 60);
    ClassifyTotal(TotalScore(answers));
    forall c | c != Legal
      ensures CategoryPercent(answers, c) == 100.0
    {
      FullPercent(answers, c);
    }
    assert ScoreTable(answers) == GapRows(p);
    GapRanked(p);
    var low := [Entry(Legal, p), Entry(Strategic, 100.0), Entry(Market, 100.0)];
    assert Lowest(Ranked(ScoreTable(answers))) == low;
    assert Weak(low[..1]) == [Entry(Legal, p)];
    assert Weak(low[..2]) == [Entry(Legal, p)];
    assert Weak(low) == [Entry(Legal, p)];
  }
}
