/**
 * The form handler's decision procedure: the completeness guard on the
 * submitted answers and contact fields, then scoring, classification and
 * recommendation selection, assembled into one result record.
 *
 * Storing the record in the session, rendering the PDF report and mailing
 * it are not part of this model; ProcessForm returns the record instead.
 */
module Assessment {
  import opened Catalog
  import opened Scoring
  import opened Readiness
  import opened Ranking
  import opened Recommendations

  datatype Result<T, E> = Success(value: T) | Failure(error: E)

  /** The only failure: some answer or contact field is missing. */
  datatype FormError = IncompleteForm

  /** The five contact fields as submitted; a field that was not submitted is "". */
  datatype Contact = Contact(name: string, company: string, position: string, phone: string, email: string)

  /** PHP's empty() on a submitted string: both "" and "0" count as empty. */
  predicate IsEmpty(s: string)
  {
    s == "" || s == "0"
  }

  predicate ContactFilled(c: Contact)
  {
    !IsEmpty(c.name) && !IsEmpty(c.company) && !IsEmpty(c.position)
    && !IsEmpty(c.phone) && !IsEmpty(c.email)
  }

  /** Every question 1..25 has a submitted answer (answers are keyed by question number). */
  predicate AllAnswered(post: map<int, int>)
  {
    forall q :: 1 <= q <= QuestionCount ==> q in post
  }

  /** Checks the questions in order and stops at the first one without an answer. */
  method AllQuestionsFilled(post: map<int, int>) returns (filled: bool)
    ensures filled <==> AllAnswered(post)
  {
    filled := true;
    var q := 1;
    while q <= QuestionCount
      invariant 1 <= q <= QuestionCount + 1
      invariant filled
      invariant forall p :: 1 <= p < q ==> p in post
    {
      if q !in post {
        filled := false;
        break;
      }
      q := q + 1;
    }
  }

  /** The 25 answers of a complete submission, entry q - 1 holding question q. */
  function AnswersOf(post: map<int, int>): (answers: seq<int>)
    requires AllAnswered(post)
    ensures |answers| == QuestionCount
    ensures forall q :: 1 <= q <= QuestionCount ==> answers[q - 1] == post[q]
  {
    seq(QuestionCount, i requires 0 <= i < QuestionCount => post[i + 1])
  }

  /** One line of the results: a category's score, maximum and percentage. */
  datatype CategoryResult = CategoryResult(category: Category, score: int, max: int, percent: real)

  /** The result record of a complete submission. */
  datatype Report = Report(
    categories: seq<CategoryResult>,
    totalScore: int,
    maxTotal: int,
    totalPercent: real,
    tier: Tier,
    recommendations: seq<Bundle>)

  function ResultFor(answers: seq<int>, c: Category): CategoryResult
    requires |answers| == QuestionCount
  {
    CategoryResult(c, CategoryScore(answers, c), MaxScore(c), CategoryPercent(answers, c))
  }

  /** The score table before ranking: one row per category, in listing order. */
  function ScoreTable(answers: seq<int>): (table: seq<Entry>)
    requires |answers| == QuestionCount
    ensures |table| == |Listing|
  {
    seq(|Listing|, i requires 0 <= i < |Listing| => Entry(Listing[i], CategoryPercent(answers, Listing[i])))
  }

  /** The result record the form handler computes from 25 answers. */
  function Assess(answers: seq<int>): Report
    requires |answers| == QuestionCount
  {
    var tier := Classify(TotalPercent(answers));
    Report(
      seq(|Listing|, i requires 0 <= i < |Listing| => ResultFor(answers, Listing[i])),
      TotalScore(answers),
      MaxTotal,
      TotalPercent(answers),
      tier,
      Recommend(Ranked(ScoreTable(answers)), tier))
  }

  /**
   * The form handler: the error record unless all 25 answers and all five
   * contact fields are there, otherwise the scored, classified and
   * recommended result record.
   */
  method ProcessForm(post: map<int, int>, contact: Contact) returns (r: Result<Report, FormError>)
    ensures r.Failure? <==> !AllAnswered(post) || !ContactFilled(contact)
    ensures r.Failure? ==> r.error == IncompleteForm
    ensures r.Success? ==> r.value == Assess(AnswersOf(post))
  {
    var allQuestionsFilled := AllQuestionsFilled(post);
    var allContactFilled := ContactFilled(contact);
    if !allQuestionsFilled || !allContactFilled {
      return Failure(IncompleteForm);
    }
    var answers := AnswersOf(post);
    var totalPercent := TotalPercent(answers);
    var tier := Classify(totalPercent);

    var entries := ScoreTable(answers);
    var table := new Entry[|entries|](i requires 0 <= i < |entries| => entries[i]);
    assert table[..] == entries;
    SortByPercent(table);
    RankedSortedPermutation(entries);
    SortedUnique(table[..], Ranked(entries));

    var recommendations := SelectRecommendations(table[..], tier);
    var categories := seq(|Listing|, i requires 0 <= i < |Listing| => ResultFor(answers, Listing[i]));
    r := Success(Report(categories, TotalScore(answers), MaxTotal, totalPercent, tier, recommendations));
  }

  /**
   * The total is the sum of all 25 answers and of the six category scores,
   * and the maximum is 593, the sum of the six category maxima.
   */
  lemma AssessTotals(answers: seq<int>)
    requires |answers| == QuestionCount
    ensures var r := Assess(answers);
      && |r.categories| == |Listing|
      && r.totalScore == Sum(answers)
      && r.totalScore == r.categories[0].score + r.categories[1].score + r.categories[2].score
                         + r.categories[3].score + r.categories[4].score + r.categories[5].score
      && r.maxTotal == r.categories[0].max + r.categories[1].max + r.categories[2].max
                       + r.categories[3].max + r.categories[4].max + r.categories[5].max
      && r.maxTotal == 593
  {
    TotalIsSumOfAnswers(answers);
  }

  /** With legal answers every percentage of the record lies in [0, 100]. */
  lemma AssessPercentagesInRange(answers: seq<int>)
    requires LegalAnswers(answers)
    ensures var r := Assess(answers);
      && (forall i :: 0 <= i < |r.categories| ==> 0.0 <= r.categories[i].percent <= 100.0)
      && 0.0 <= r.totalPercent <= 100.0
  {
    PercentagesInRange(answers);
  }

  /** The tier is set by the whole total: 475.. High, 356..474 Medium, 238..355 Low, below Critical. */
  lemma AssessTier(answers: seq<int>)
    requires |answers| == QuestionCount
    ensures var r := Assess(answers);
      && (r.tier == High <==> 475 <= Sum(answers))
      && (r.tier == Medium <==> 356 <= Sum(answers) <= 474)
      && (r.tier == Low <==> 238 <= Sum(answers) <= 355)
      && (r.tier == Critical <==> Sum(answers) <= 237)
  {
    TotalIsSumOfAnswers(answers);
    ClassifyTotal(TotalScore(answers));
  }

  /** A submission with a higher total never gets a lower tier. */
  lemma AssessTierMonotone(a: seq<int>, b: seq<int>)
    requires |a| == QuestionCount && |b| == QuestionCount
    requires TotalScore(a) < TotalScore(b)
    ensures Rank(Assess(a).tier) <= Rank(Assess(b).tier)
  {
    PercentCompare(TotalScore(a), MaxTotal, 0);
    var pa, pb := TotalPercent(a), TotalPercent(b);
    assert pa * MaxTotal as real == 100.0 * TotalScore(a) as real;
    assert pb * MaxTotal as real == 100.0 * TotalScore(b) as real;
    ClassifyMonotone(pa, pb);
  }

  /**
   * The ranked table of a submission: all six categories, each once, each
   * with its own percentage, in ascending order (ties in listing order).
   */
  lemma RankedTable(answers: seq<int>)
    requires |answers| == QuestionCount
    ensures var ranked := Ranked(ScoreTable(answers));
      && |ranked| == |Listing|
      && Sorted(ranked)
      && DistinctCategories(ranked)
      && (forall c :: Entry(c, CategoryPercent(answers, c)) in ranked)
      && (forall e :: e in ranked ==> e.percent == CategoryPercent(answers, e.category))
  {
    var table := ScoreTable(answers);
    RankedSortedPermutation(table);
    assert |Ranked(table)| == |multiset(Ranked(table))| == |table|;
    RankedDistinct(table);
    forall c: Category
      ensures Entry(c, CategoryPercent(answers, c)) in Ranked(table)
    {
      assert table[Ordinal(c)] == Entry(c, CategoryPercent(answers, c));
      RankedMembers(table, Entry(c, CategoryPercent(answers, c)));
    }
    forall e | e in Ranked(table)
      ensures e.percent == CategoryPercent(answers, e.category)
    {
      RankedMembers(table, e);
    }
  }

  /**
   * The recommendations of a submission: one to three bundles; the tier
   * default alone exactly when none of the three lowest-ranked categories
   * is below 60%; otherwise no category at or above 60% and none outside
   * the three lowest contributes.
   */
  lemma AssessRecommendations(answers: seq<int>)
    requires |answers| == QuestionCount
    ensures var r, ranked := Assess(answers), Ranked(ScoreTable(answers));
      && |ranked| == |Listing|
      && 1 <= |r.recommendations| <= 3
      && (r.recommendations == [TierDefault(r.tier)]
          <==> forall k :: 0 <= k < 3 ==> ranked[k].percent >= WeakBelow)
      && (forall k :: 0 <= k < |ranked| && (ranked[k].percent >= WeakBelow || k >= 3)
            ==> ForCategory(ranked[k].category) !in r.recommendations)
  {
    var r, ranked := Assess(answers), Ranked(ScoreTable(answers));
    RankedTable(answers);
    RecommendCount(ranked, r.tier);
    RecommendFallback(ranked, r.tier);
    assert Lowest(ranked) == ranked[..3];
    forall k | 0 <= k < |ranked| && (ranked[k].percent >= WeakBelow || k >= 3)
      ensures ForCategory(ranked[k].category) !in r.recommendations
    {
      RecommendOnlyWeakest(ranked, r.tier, k);
    }
  }
}
