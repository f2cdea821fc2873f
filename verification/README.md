# Readiness Radar — scoring core in Dafny

Readiness Radar is a single-page questionnaire. A company rates itself on
twenty questions, using sliders from 1 to 5. The questions fall into five
readiness dimensions: produto, mercado, documentação, segurança and
certificações. For each dimension the page shows:

- the average score, rounded to two decimals;
- a qualitative badge, from "Por avaliar" through "Crítico", "Fraco",
  "Moderado" and "Bom" to "Muito bom";
- one axis of a radar chart drawn on a 0–5 scale.

This project models the logic behind that page in `src/App.tsx`, with React
taken out. It consists of:

- the static catalog;
- the answer map and its slider update;
- the per-dimension grouping, tallies and rounded means;
- the chart series;
- the level classification.

It then proves properties of these pieces.

Modules:

- `Catalog` (`catalog.dfy`):
  - the `DimensionKey` and `Question` datatypes;
  - the twenty-entry catalog, built as five four-question sections whose ids are "P1"–"P4", "M1"–"M4", "D1"–"D4", "S1"–"S4" and "C1"–"C4";
  - the display order of the dimensions;
  - `InDimension`, the order-preserving selection of one dimension's questions, and its laws.
- `Answers` (`answers.dfy`):
  - the answer map, from question id to integer;
  - the slider value type `Likert` (1..5);
  - the initial answers (every id set to 3);
  - the one-entry slider update.
- `Rounding` (`rounding.dfy`): `Round2`, which models `parseFloat(x.toFixed(2))` on exact reals. The magnitude is rounded to the nearest hundredth, a tie goes to the larger magnitude, and the sign is kept.
- `Scoring` (`scoring.dfy`):
  - the one-pass `Tallies` loop, which computes sum and count per dimension;
  - the `DimensionScores` loop;
  - the score of a dimension;
  - bounds, locality and monotonicity lemmas.
- `Grouping` (`grouping.dfy`): the form's grouping of the questions by dimension, and the proof that it partitions the catalog.
- `Radar` (`radar.dfy`): the chart's data series, in display order, on the 0..5 scale.
- `Levels` (`levels.dfy`): the six-way badge classification and its boundaries.
- `Scenarios` (`scenarios.dfy`): end-to-end facts about the real catalog. They cover the initial state and sequences of slider moves.

Numbers are exact. Sums are unbounded `int`. Means are `real` quotients, and
the rounding to two decimals is applied to the exact quotient. This can differ
from the program's double arithmetic at a tie (see "## Left out").

## Model

| member | source | states |
|---|---|---|
| Catalog.SectionShape | src/App.tsx:37-167 | each dimension's section has four questions, all tagged with that dimension, with distinct ids that start with the dimension's letter |
| Catalog.SectionSpelling | src/App.tsx:37-167 | spelled out, a section holds the questions X1, X2, X3 and X4 in order, where X is the dimension's letter |
| Catalog.CatalogSpelledOut | src/App.tsx:39-166 | written out with string literals, the five sections are P1–P4 (produto), M1–M4 (mercado), D1–D4 (documentacao), S1–S4 (seguranca) and C1–C4 (certificacoes), in catalog order |
| Catalog.CatalogShape | src/App.tsx:37-167 | the catalog has 20 entries with pairwise-distinct ids, and each of the five dimensions has exactly four questions |
| Catalog.CatalogIdsDistinct | src/App.tsx:37-167 | no two catalog questions share an id |
| Catalog.CatalogCount | src/App.tsx:37-167 | for every dimension, the catalog has exactly four questions of that dimension |
| Catalog.DimensionOrderEnumerates | src/App.tsx:177-183 | the display order lists each of the five dimensions exactly once |
| Catalog.ForEachDimension | src/App.tsx:195-201 | the record literal with one entry per dimension holds the given initial value under every dimension key |
| Catalog.InDimensionMembers | src/App.tsx:202-204 | a question is selected for dimension d if and only if it is in the list and tagged d |
| Catalog.InDimensionAppend | src/App.tsx:202-204 | selecting a dimension distributes over concatenation, so the selection keeps catalog order |
| Catalog.InDimensionSnoc | src/App.tsx:202-204 | visiting one more question extends only its own dimension's list, by that question at the end |
| Catalog.InDimensionMultiplicity | src/App.tsx:202-204 | a question occurs in its own dimension's selection as often as in the list, and never in another dimension's selection |
| Catalog.InDimensionPartition | src/App.tsx:202-204 | the five selections together are a rearrangement (multiset) of the list |
| Catalog.CatalogSelection | src/App.tsx:37-167 | the catalog's questions of d are exactly the section of d, in catalog order |
| Catalog.SectionSelection | src/App.tsx:37-167 | selecting dimension d from the section of e gives the whole section when e = d, and nothing otherwise |
| Answers.ValueOfReachable | src/App.tsx:218 | in a reachable state the `?? 0` fallback never applies to a catalog question: its value is the recorded answer, in 1..5 |
| Answers.ValueOfAfterSetAnswer | src/App.tsx:331-336 | after a slider move, the moved id reads the new value and every other id reads what it read before |
| Answers.InitialAnswers | src/App.tsx:186-192 | the initial map has exactly the catalog ids as keys, and each maps to 3 |
| Answers.InitialAnswersValid | src/App.tsx:186-192 | the initial answers are a valid state: exactly the catalog ids, each with a slider value |
| Answers.SetAnswer | src/App.tsx:331-336 | the update records v for the moved question's id and keeps every other entry unchanged; it adds no key except that id |
| Answers.SetAnswerPreservesValid | src/App.tsx:325-336 | a slider move on a catalog question keeps the answers valid |
| Rounding.Round2 | src/App.tsx:233-235 | the result lies on the grid of hundredths, within 0.005 of the input, and has the input's sign; the bound is half-open, so a tie between two hundredths goes to the one farther from zero |
| Rounding.Round2Ties | src/App.tsx:233-235 | ties round away from zero: 0.125 becomes 0.13 and -0.125 becomes -0.13 |
| Rounding.Round2Exact | src/App.tsx:233-235 | a value already on the grid of hundredths is unchanged |
| Rounding.Round2Monotone | src/App.tsx:233-235 | rounding never reverses the order of two values |
| Rounding.Round2Separates | src/App.tsx:233-235 | two values at least 0.01 apart stay strictly ordered after rounding |
| Scoring.Mean | src/App.tsx:231-237 | a tally's score is 0 when it counted nothing; otherwise it is on the grid of hundredths and within 0.005 of sum/count |
| Scoring.Score | src/App.tsx:208-240 | a dimension without questions scores 0; otherwise its score is on the grid of hundredths and within 0.005 of the sum of its answers divided by its number of questions |
| Scoring.Tallies | src/App.tsx:209-221 | the one-pass loop leaves, for every dimension, the sum of the answers to its questions (a missing id counts as 0) and the number of those questions |
| Scoring.TallyStep | src/App.tsx:217-221 | one loop step adds the answer and 1 to its own dimension's tally and leaves the other tallies unchanged |
| Scoring.DimensionScores | src/App.tsx:208-240 | every dimension gets its score: the rounded mean of its tally, or 0 for an empty dimension |
| Scoring.SumBounds | src/App.tsx:217-221 | with every answer in 1..5, a dimension's sum lies between its count and five times its count |
| Scoring.ScoreBounds | src/App.tsx:208-240 | with every answer in 1..5, a non-empty dimension scores in [1, 5], and an empty one scores 0 |
| Scoring.ScoreIsExactMean | src/App.tsx:231-237 | when the count divides 100, rounding changes nothing and score × count = sum |
| Scoring.CatalogScoreIsQuarterSum | src/App.tsx:217-237 | in the catalog, every score is exactly its dimension's sum divided by 4 |
| Scoring.MeanOfUniform | src/App.tsx:231-237 | a tally whose answers average to an integer k scores exactly k |
| Scoring.SumAfterUpdate | src/App.tsx:217-221 | changing one id's answer moves a sum by the change times the number of entries that use that id |
| Scoring.OccurrencesOfQuestion | src/App.tsx:217-221 | with distinct ids, a question's id appears once in its own dimension and never in the others |
| Scoring.SetAnswerKeepsOtherScores | src/App.tsx:217-221 | a slider move leaves the score of every other dimension unchanged |
| Scoring.SetAnswerShiftsSum | src/App.tsx:217-221 | a slider move shifts its own dimension's sum by exactly the change of that answer and keeps the count |
| Scoring.MeanMonotone | src/App.tsx:231-237 | for the same positive count, a larger sum never scores lower |
| Scoring.MeanStrictlyMonotone | src/App.tsx:231-237 | for the same count, at most 100, a larger sum scores strictly higher |
| Scoring.RaisingAnswerNeverLowersScore | src/App.tsx:217-235 | raising one answer, with all others fixed, never lowers its dimension's score |
| Scoring.RaisingAnswerRaisesScore | src/App.tsx:217-235 | raising one answer, with all others fixed, strictly raises its dimension's score (for dimensions of at most 100 questions) |
| Scoring.CatalogSetAnswer | src/App.tsx:217-235 | in the catalog, raising an answer strictly raises its own dimension's score and leaves every other score unchanged |
| Grouping.GroupByDimension | src/App.tsx:194-206 | the push loop gives each dimension exactly its questions, in catalog order |
| Grouping.GroupsPartition | src/App.tsx:194-206 | every question is in its own dimension's group and in no other; each group holds only questions of its dimension; together the groups are a rearrangement of the list |
| Grouping.CatalogGroups | src/App.tsx:194-206 | each catalog group is exactly its dimension's catalog section, in catalog order: four questions |
| Radar.RadarData | src/App.tsx:242-247 | the series has one point per dimension, in display order, equal to that dimension's score; with answers in 1..5 every point lies on the chart's 0..5 scale |
| Levels.Classify | src/App.tsx:276-283 | a score gets "Por avaliar" if and only if it is 0; otherwise the level's rank is the score rounded half-down to an integer, clamped to 1..5 |
| Levels.LevelLabel | src/App.tsx:276-283 | the badge text is one of the six labels, and it is "Por avaliar" if and only if the score is 0 |
| Levels.LabelsDistinct | src/App.tsx:276-283 | the six badge texts are pairwise different |
| Levels.ClassifyMonotone | src/App.tsx:276-283 | on positive scores, a higher score never gets a lower level |
| Levels.ClassifyBoundaries | src/App.tsx:276-283 | 0 reads "Por avaliar"; each band includes its upper bound (1.5, 2.5, 3.5 and 4.5) and the next hundredth is in the band above; anything above 4.5 is "Muito bom" |
| Levels.LegendGaps | src/App.tsx:276-283 | 0 reads "Por avaliar", and scores in the gaps between the printed bands (1.55, 2.55, 3.55, 4.55) read as the band above |
| Levels.ClassifyAssessed | src/App.tsx:276-283 | every score in [1, 5] gets one of the five assessed levels |
| Scenarios.InitialState | src/App.tsx:186-240 | in the initial state every dimension scores 3, which reads "Moderado" |
| Scenarios.ReachableScoresInRange | src/App.tsx:186-240 | in every reachable state, meaning exactly the catalog ids each with a slider value in 1..5, every dimension scores between 1 and 5 and gets one of the five assessed levels |
| Scenarios.LowerOneAnswer | src/App.tsx:217-283 | moving one slider (S1, say) to 1 from the initial state makes its dimension 2.5, which reads "Fraco", and leaves every other dimension at 3 |
| Scenarios.SetAnswers | src/App.tsx:331-336 | after a sequence of slider moves to v, every moved id reads v, every other entry is kept, and the keys are exactly the old keys plus the moved ids |
| Scenarios.SetAnswersPreservesValid | src/App.tsx:325-336 | a sequence of slider moves on catalog questions keeps the answers valid: exactly the catalog ids, each with a value in 1..5 |
| Scenarios.SetWholeDimension | src/App.tsx:217-237 | from uniform answers c, moving every slider of dimension e to v makes e score v and keeps every other non-empty dimension at c |
| Scenarios.RaiseWholeDimension | src/App.tsx:217-237 | moving one dimension's four sliders to 5 from the initial state makes it score 5 and keeps the others at 3 |
| Scenarios.RaiseWholeDimensionLevel | src/App.tsx:276-283 | the dimension raised that way reads "Muito bom" |

## Left out

- The JSX markup, CSS classes, header text and legend prose (`src/App.tsx:285-386`) are not modelled. They are presentation only. The legend's ranges (`src/App.tsx:358-380`) are prose and disagree with `getLevelLabel`: they print 0 as "Crítico" where `getLevelLabel` says "Por avaliar", and they leave gaps between x,5 and x,6. `getLevelLabel` puts those gaps in the band above (`Levels.LegendGaps`). No reachable catalog score falls into a gap: each is a multiple of 0.25 (`Scoring.CatalogScoreIsQuarterSum`). The model follows `getLevelLabel`.
- Chart.js registration and the chart options (`src/App.tsx:2-22, 256-274`) are not modelled, except the 0..5 radial scale, which is kept as `Radar.ScaleMin` and `Radar.ScaleMax`. The rest is configuration of a foreign library.
- The dimension display labels (`src/App.tsx:169-175`) and each question's Portuguese prompt text are not modelled. Only ids and dimension tags take part in the logic.
- React's `useState`/`useMemo` mechanics and re-render scheduling are not modelled. State is a value passed into pure functions and returned from them.
- IEEE-754 doubles are not modelled. `Number(e.target.value)`, the division and `toFixed(2)`/`parseFloat` are exact `int`/`real` arithmetic. `Round2` rounds the exact quotient, not its nearest double, so the two can disagree at a tie. For example, 41/40 is exactly 1.025, which `Round2` takes to 1.03. The double nearest 1.025 lies just below it, so `toFixed(2)` gives "1.02". For the catalog's four-answer means, which are multiples of 0.25, no rounding happens and the two agree.
- Answers.SetAnswer: its value parameter is typed `Likert` (1..5), and there is no error path. The code validates neither the value nor the id, because the range slider at `src/App.tsx:325-330` can only produce integers 1..5. `SetAnswer` on an id outside the catalog adds that key, exactly as the object spread does.
- Scoring.RaisingAnswerRaisesScore: the strict increase is proved only for dimensions of at most 100 questions. Beyond that, a one-point change in the sum can move the mean by less than half a hundredth, and rounding can hide it. The catalog has four questions per dimension, so `CatalogSetAnswer` states the property without that bound.
- Levels.Classify: negative scores are classified as the code does, as "Crítico". They arise only from out-of-range answers.
