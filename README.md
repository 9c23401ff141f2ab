# IPO readiness assessment — decision procedure

A company answers a 25-question questionnaire. Every question is single-choice, and each option carries a fixed number of points. The questions fall into six categories by contiguous question ranges:

- strategic readiness (1–4)
- size and market position (5–9)
- financial readiness (10–14)
- organisational readiness (15–19)
- legal readiness (20–21)
- communications readiness (22–25)

The form handler does the following:

1. It refuses the submission unless all 25 answers and all five contact fields (name, company, position, phone, e-mail) are present.
2. It sums each category's answers and turns each sum into a percentage of the category's hard-coded maximum (83, 130, 140, 90, 60, 90).
3. It adds everything up to a total out of 593.
4. It picks a readiness tier from the overall percentage: High from 80, Medium from 60, Low from 40, otherwise Critical.
5. It ranks the six categories by percentage, ascending.
6. It takes the three lowest categories and recommends a category-specific bundle for each one below 60%. If none is below 60%, it recommends the tier's default bundle instead.

The model is split into modules:

- `Catalog`: the questionnaire. It holds the option values of every question, the category ranges and maxima, and the section headers.
- `Scoring`: category scores and percentages, and the total.
- `Readiness`: the tier chain.
- `Ranking`: the table order. It has a functional specification `Ranked` and the in-place array sort `SortByPercent` proved against it.
- `Recommendations`: the selector, as a specification `Recommend` and the loop `SelectRecommendations` proved equal to it.
- `Assessment`: the form handler `ProcessForm` and the result record `Assess`.
- `Scenarios`: three complete submissions worked through end to end.

A submission's answers are a map from question number to the submitted integer. A question is answered exactly when its number is a key. Percentages are exact rationals.

The ranking uses a comparator on the percentage alone, and the sort is stable, so tied categories keep the listing order in which the table is built. The model therefore orders rows by the pair (percentage, listing position). `Ranking.PrecedesTotalOrder` shows that this pair order is a total order, and `Ranking.SortedUnique` shows that it has exactly one sorted arrangement.

There are six category bundles in `index.php` (lines 243-335), one per category.

## Model

| member | source | states |
|---|---|---|
| Catalog.CategoryOf | index.php:135-140 | every question 1..25 is scored under a category whose range contains it |
| Catalog.RangesPartition | index.php:135-140 | the six ranges are non-empty, start at 1, follow each other without gap or overlap in listing order, and end at 25 |
| Catalog.RangeMembership | index.php:135-140 | a question lies in a category's range exactly when that category is the one it is scored under, so every answer counts in exactly one category |
| Catalog.Ordinal | index.php:231-238 | each category has a position in the table's listing order, and the listing holds that category at that position |
| Catalog.OrdinalInjective | index.php:231-238 | different categories have different listing positions |
| Catalog.Options | index.php:870-1086 | every question offers at least one option |
| Catalog.OptionsNonNegative | index.php:870-1086 | no option is worth fewer than 0 points |
| Catalog.BestOptionBounds | index.php:870-1086 | a question's best value is one of its options, and no option is worth more |
| Catalog.MaxScoreMatchesCatalog | index.php:143-148 | each hard-coded category maximum equals the sum of the best option values of the category's questions |
| Catalog.MaxScore | index.php:143-148 | the six hard-coded category maxima; `Catalog.MaxScoreMatchesCatalog` ties each one to the option values |
| Catalog.SectionsMatchRanges | index.php:1089-1096 | the section headers (the constant `Sections`, keyed by question number) stand before question q exactly when q opens a scoring range, and each names the category q is scored under |
| Scoring.CategoryScore | index.php:135-140 | a category's score is the sum of the answers to the questions of its range; `Scoring.CategoryScoreBounds` bounds it |
| Scoring.Percent | index.php:151-156 | score divided by maximum, times 100, without truncation; `Scoring.PercentCompare` relates it to whole thresholds |
| Scoring.CategoryPercent | index.php:151-156 | a category's percentage of its own maximum |
| Scoring.TotalScore | index.php:159 | the total is the six category scores added up; `Scoring.TotalIsSumOfAnswers` shows it is the sum of all answers |
| Scoring.TotalPercent | index.php:160-161 | the total as a percentage of the total maximum `MaxTotal`, the six maxima added up (593) |
| Scoring.PercentCompare | index.php:151-156 | a percentage is below, or equal to, a whole threshold exactly when 100·score is below, or equal to, threshold·max |
| Scoring.TotalIsSumOfAnswers | index.php:159 | the total of the six category scores is the sum of all 25 answers |
| Scoring.CategoryScoreBounds | index.php:135-148 | with answers taken from the offered options, every category score lies between 0 and its maximum |
| Scoring.PercentBounds | index.php:151-161 | a score between 0 and its maximum is a percentage between 0 and 100 |
| Scoring.PercentagesInRange | index.php:151-161 | with answers taken from the offered options, every category percentage and the total percentage lie in [0, 100] |
| Scoring.BestAnswersLegal | index.php:870-1086 | choosing the best option everywhere is a valid submission |
| Scoring.MaximaAttained | index.php:143-160 | the best submission scores exactly each category maximum, and 593 = the total maximum in total |
| Readiness.Classify | index.php:164-228 | the tier chain: the first of 80, 60, 40 (from the top) that the percentage reaches, else Critical; its bands are proved in `Readiness.ClassifyBands` |
| Readiness.ClassifyBands | index.php:164-228 | every percentage falls in exactly one band with inclusive lower bounds: High at 80 and above, Medium in [60, 80), Low in [40, 60), Critical below 40 |
| Readiness.ClassifyMonotone | index.php:164-228 | a larger percentage never yields a lower tier |
| Readiness.ClassifyTotal | index.php:159-228 | over 593 points the tiers are whole-score ranges: High 475 and above, Medium 356–474, Low 238–355, Critical 237 and below |
| Readiness.NoTotalOnBoundary | index.php:161-196 | no whole total is exactly 80, 60 or 40 percent of 593 |
| Ranking.Ranked | index.php:239 | the ranked table by insertion under (percentage, listing position); `Ranking.RankedSortedPermutation` and `Ranking.SortedUnique` show it is the one sorted permutation |
| Ranking.PrecedesTotalOrder | index.php:239 | ordering by (percentage, listing position) is reflexive, total, antisymmetric and transitive |
| Ranking.InsertSortedPermutation | index.php:239 | inserting a row into a sorted table keeps it sorted and adds exactly that row |
| Ranking.RankedSortedPermutation | index.php:239 | the ranked table is sorted and is a permutation of the unranked one |
| Ranking.SortedUnique | index.php:239 | two sorted tables with the same rows are equal, so the ranking is determined by the rows alone |
| Ranking.RankedMembers | index.php:239 | a row is in the ranked table exactly when it is in the unranked one |
| Ranking.RankedDistinct | index.php:231-239 | ranking a table with one row per category keeps one row per category |
| Ranking.SortByPercent | index.php:239 | the in-place sort leaves the table sorted by (percentage, listing position) and a permutation of what it was |
| Recommendations.Recommend | index.php:241-341 | the category bundles of the rows below 60% among the first three, in table order, or the tier's default bundle when there are none; its properties are the `Recommend…` lemmas below |
| Recommendations.SelectRecommendations | index.php:241-341 | the loop over the first three rows, followed by the default fallback, returns exactly the specified recommendation list |
| Recommendations.WeakMembers | index.php:242-243 | the weak rows are exactly the rows below 60%, and there are never more of them than rows |
| Recommendations.WeakSorted | index.php:241-336 | the weak rows keep the ascending order of the table |
| Recommendations.WeakDistinct | index.php:241-336 | the weak rows keep categories distinct |
| Recommendations.RecommendCount | index.php:241-341 | there are always one to three recommendations |
| Recommendations.RecommendFallback | index.php:339-341 | the list is the tier's default bundle alone exactly when none of the three lowest rows is below 60% |
| Recommendations.RecommendWeakest | index.php:241-336 | otherwise the i-th recommendation is the bundle of the i-th weak row among the three lowest, and a row among the three lowest is weak exactly when it is below 60% |
| Recommendations.RecommendOrdered | index.php:241-336 | for a ranked table of distinct categories with some weak row, the recommendations are the weak rows' category bundles, pairwise different and in ascending order of percentage |
| Recommendations.RecommendOnlyWeakest | index.php:242-243 | no category at or above 60% and no category outside the three lowest rows gets a bundle |
| Assessment.AllQuestionsFilled | index.php:117-123 | the scan reports complete exactly when every question 1..25 has an answer |
| Assessment.AnswersOf | index.php:104-106 | the answer of question q is the submitted value for q |
| Assessment.Assess | index.php:135-341 | the result record of 25 answers: per-category scores, maxima and percentages, total, maximum, percentage, tier and recommendations; its properties are the `Assess…` lemmas below |
| Assessment.ProcessForm | index.php:117-341 | the result is the incomplete-form error exactly when an answer or a contact field is missing (a field of "" or "0" counts as missing); otherwise it is the full result record |
| Assessment.AssessTotals | index.php:159-160 | the total is the sum of the six category scores and of all 25 answers; the maximum is the sum of the six maxima, 593 |
| Assessment.AssessPercentagesInRange | index.php:151-161 | with answers taken from the offered options, every percentage of the record lies in [0, 100] |
| Assessment.AssessTier | index.php:164-228 | the tier of a record is set by the sum of the answers: High 475 and above, Medium 356–474, Low 238–355, Critical 237 and below |
| Assessment.AssessTierMonotone | index.php:164-228 | a submission with a higher total never gets a lower tier |
| Assessment.RankedTable | index.php:231-239 | the ranked table holds every category once with its own percentage, in ascending order |
| Assessment.AssessRecommendations | index.php:241-341 | a record has one to three recommendations; it has the default bundle alone exactly when the three lowest categories are at or above 60%; and no other category gets a bundle |
| Scenarios.AllBestScenario | index.php:164-180 | with every category at its maximum, the record shows 593 points, 100%, tier High and only the High default bundle |
| Scenarios.BestAnswersScenario | index.php:164-180 | the best answers give tier High and only the High default bundle |
| Scenarios.ZeroRowsRanked | index.php:239 | a table with all six categories tied keeps listing order when ranked |
| Scenarios.AllZeroScenario | index.php:212-336 | all answers 0 give a total of 0, tier Critical, and the strategic, market and financial bundles, in that order |
| Scenarios.GapRanked | index.php:239 | a single category below 100% among five at 100% ranks first, and the others keep listing order |
| Scenarios.LegalGapScenario | index.php:164-336 | with every category at its maximum except legal, which is below 60%, the tier is High but the only recommendation is the legal bundle |

## Left out

- PDF generation (index.php:13-94 and 343-401) is not modelled. It is output only.
- E-mailing the report is not modelled. It is I/O.
- The consultation request handler in send_consultation.php is not part of this model.
- The session is not modelled: writes to it at index.php:103-114 and 404-409, and restoring the form from it. `ProcessForm` returns the result record instead of storing it.
- The result record's `emailSent`, `emailError` and `error` fields are not modelled. They concern the output steps.
- The record's readiness label and general-assessment text are represented by the tier alone.
- Question texts, option labels, section titles and the paragraphs and plans of every bundle are opaque text. They are represented by tags: a category for a category bundle, a tier for a default bundle.
- The HTML form, the chart and the client-side script are presentation and are not modelled.
- Assessment.AnswersOf: the `(int)` cast of submitted strings is not modelled. Answers arrive as integers, so a non-numeric string (cast to 0 by the source) has no counterpart.
- Assessment.ProcessForm: `htmlspecialchars` on contact fields is not modelled. It cannot affect whether a field is empty. A contact field that was not submitted is modelled as "".
- Scoring.Percent: percentages are exact rationals rather than IEEE doubles. For answers of at most 10^6 in absolute value, which covers every option value, this gives the same tiers and the same ranking.
  - Two different category percentages then differ by at least 1/(140·130) before the factor 100, far more than the rounding error of doubles at that size. So rounding cannot merge or reorder them.
  - No total is on a tier boundary (`Readiness.NoTotalOnBoundary`). A total's percentage is at least 20/593 away from each boundary.
  - A category sitting exactly at 60% (78/130, 84/140, 54/90, 36/60) gives the double 60 exactly as well.
- Very large answers are not modelled faithfully. The handler accepts any integer a hand-crafted request sends, so two different category percentages of order 10^17 can round to the same double. The stable sort then keeps them in listing order, where the exact model orders them by value, and the recommendations can differ. Integer sums that overflow PHP's 64-bit integers become floats, which is not modelled either.
- Ranking.SortByPercent: the source sorts with a comparator on the percentage alone. The model assumes that sort is stable, as PHP 8's sort is, so ties keep listing order. An unstable sort (older PHP) could put tied categories in another order.
