# Tazkiyah check-in core, modelled in Dafny

Tazkiyah is a daily habit and reflection tracker. Each day the user ticks
required habits (the five prayers, reading Qur'an, no caffeine) and bonus
habits (Stretch, Journal, Lowered Gaze), picks a mood emoji and writes a
reflection. The app turns that check-in into an **alignment score**, then into
**habit suggestions** for tomorrow. From the saved history it computes a
habit's **streak**: how many of the latest check-ins in a row completed it.

This project models those three computations and proves what they promise:

- `checkin.dfy`, module `Checkin`: a habit completion mapping (a Python dict
  from habit name to bool) as an ordered `seq<Habit>` of name/bool pairs. It
  also holds the done-count, dictionary lookup and the mood symbols.
- `scoring.dfy`, module `Scoring` (`utils/scoring.py`): pure functions over
  `real`. The score is 0.4 × the required share done, + 0.2 × the bonus share
  done, + 0.2 × the mood valence (0.5 for a mood outside the table), + 0.2 ×
  the sentiment rescaled from [-1, 1] onto [0, 1]. It is rounded to three
  decimal places. An empty habit mapping yields `Failure(ZeroDivisionError)`,
  which is what Python's division by `len` raises.
- `recommender.dfy`, module `Recommender` (`utils/recommender.py`): the method
  `SuggestHabits` builds the candidate list in two loops. The first loop adds
  missed required habits. The second adds the emotional boosters that are in
  the bonus mapping and not done, and runs only when alignment < 0.5 or the
  mood is 😭 or 😤. The method then deduplicates, keeping first occurrences,
  and cuts the list to three. It is proved equal to the specification function
  `Suggestions`, and lemmas about `Suggestions` cover length, uniqueness,
  origin, ordering and the cases with no suggestions.
- `analytics.dfy`, module `Analytics` (`utils/analytics.py`): the saved
  history is a `Table` (a set of column names and a sequence of rows, oldest
  first). Each cell is an `Option<bool>`, and `None` is a null. The method
  `CalculateStreak` returns 0 for an empty frame and for a missing column.
  Otherwise it scans from the newest row backwards and stops at the first row
  not done. It is proved to return the longest all-true suffix, `TrailingTrue`.
- `wrappers.dfy`, module `Wrappers`: `Option` and `Result`.

The functions take their inputs as values, so the input mappings cannot be
modified. This matches the source, which only reads them.

Two behaviours of the code that the model keeps:

- `utils/scoring.py:14` and `utils/scoring.py:17` divide by `len`, so an
  empty mapping raises `ZeroDivisionError`. The model returns
  `Failure(ZeroDivisionError)`.
- pandas' `DataFrame.empty` (`utils/analytics.py:4`) is true for a frame with
  no rows or with no columns. `IsEmpty` covers both.

## Model

| member | source | states |
|---|---|---|
| `Checkin.CountDone` | utils/scoring.py:14 | `sum(values())`: the number of habits done is at most the mapping's size |
| `Checkin.CountDoneExtremes` | utils/scoring.py:14 | the number of habits done equals the mapping's size exactly when every habit is done, and is zero exactly when none is |
| `Checkin.CountDoneComplete` | utils/scoring.py:14 | marking one not-done habit as done raises the done count by exactly one |
| `Checkin.CountDoneConcat` | utils/scoring.py:14 | the done count of two mappings laid end to end is the sum of their counts |
| `Checkin.Lookup` | utils/recommender.py:22 | lookup yields None exactly when no entry has the key; otherwise the key with the found value is an entry, and with distinct keys it is that entry's value |
| `Scoring.Ratio` | utils/scoring.py:14-17 | the done share of a non-empty mapping lies in [0, 1]; it is 0 exactly when nothing is done and 1 exactly when everything is |
| `Scoring.MoodScore` | utils/scoring.py:20-27 | the valence lies in [0, 1]; a mood outside the table gets 0.5; it is 1.0 only for 😊 and 0.0 only for 😭 |
| `Scoring.NormalizeSentiment` | utils/scoring.py:29-30 | the rescaled sentiment lies in [0, 1] exactly when the polarity lies in [-1, 1]; -1 maps to 0 and 1 maps to 1 |
| `Scoring.NormalizeSentimentAffine` | utils/scoring.py:30 | the rescaling is affine: it maps a weighted mean of two polarities to the same mean of their images |
| `Scoring.Alignment` | utils/scoring.py:7-38 | for a polarity in [-1, 1] the unrounded score lies in [0, 1]; it is 1 exactly on a perfect day and 0 exactly on the worst day |
| `Scoring.Composite` | utils/scoring.py:33-38 | the weighted sum of four components in [0, 1] lies in [0, 1]; all components 1 give 1 and all 0 give 0, so the weights sum to one |
| `Scoring.Round3` | utils/scoring.py:40 | the rounded value is a multiple of 1/1000 within half a thousandth of the input |
| `Scoring.Round3Bounds` | utils/scoring.py:40 | rounding keeps a value in [0, 1] inside [0, 1] |
| `Scoring.Round3Monotone` | utils/scoring.py:40 | rounding preserves the order of two values |
| `Scoring.Round3Exact` | utils/scoring.py:40 | a value with three decimal places rounds to itself |
| `Scoring.CalculateAlignmentScore` | utils/scoring.py:1-40 | fails with ZeroDivisionError exactly when a mapping is empty; otherwise it has three decimal places, is within half a thousandth of the unrounded score and, for a polarity in [-1, 1], lies in [0, 1] |
| `Scoring.PerfectDayScoresOne` | utils/scoring.py:33-40 | everything done, 😊 and polarity 1.0 score exactly 1.0 (the weights sum to one) |
| `Scoring.WorstDayScoresZero` | utils/scoring.py:33-40 | nothing done, 😭 and polarity -1.0 score exactly 0.0 |
| `Scoring.RatioComplete` | utils/scoring.py:14 | completing one habit raises the done share by one over the mapping's size |
| `Scoring.CompletingRequiredRaisesScore` | utils/scoring.py:14-40 | completing one more required habit, all else fixed, adds exactly 0.4/len(required) to the unrounded score, and the rounded score never goes down |
| `Scoring.NeutralDayExample` | utils/scoring.py:14-40 | 2 of 7 required done, no bonus done, 😐 and polarity 0.0 score 0.314 |
| `Recommender.NegativeMoodsAreLowest` | utils/recommender.py:19 | 😭 and 😤 are exactly the two lowest-valence moods of the scorer's table |
| `Recommender.NeedsBoost` | utils/recommender.py:19 | the day calls for boosters exactly when alignment < 0.5 or the mood's valence in the scorer's table is below 0.5 (😭 or 😤) |
| `Recommender.MissedRequired` | utils/recommender.py:14-16 | the first loop collects as many names as there are required habits not done |
| `Recommender.MissedRequiredMembers` | utils/recommender.py:14-16 | a name is collected in the first loop exactly when the required mapping holds it as not done |
| `Recommender.MissedRequiredAllDone` | utils/recommender.py:14-16 | when every required habit is done, the first loop collects nothing |
| `Recommender.MissedRequiredConcat` | utils/recommender.py:14-16 | the first loop's collection, over two mappings laid end to end, is the two collections concatenated in order |
| `Recommender.MissedRequiredDistinct` | utils/recommender.py:14-16 | with distinct keys, the first loop collects no name twice |
| `Recommender.AvailableBoostersMembers` | utils/recommender.py:20-23 | a name is collected in the booster loop exactly when it is a booster present in the bonus mapping with value false |
| `Recommender.AvailableBoosters` | utils/recommender.py:20-23 | the booster loop collects at most one name per booster |
| `Recommender.AvailableBoostersConcat` | utils/recommender.py:20-23 | the booster loop's collection distributes over concatenation, so earlier boosters come first |
| `Recommender.AvailableBoostersSingle` | utils/recommender.py:22-23 | a single booster is collected exactly when the bonus mapping holds it with value false |
| `Recommender.AvailableBoostersDistinct` | utils/recommender.py:20-23 | a booster list without repeats yields no name twice |
| `Recommender.BoostersInFixedOrder` | utils/recommender.py:20-23 | the boosters are collected in the order Stretch, Journal, Lowered Gaze, each exactly when present in the bonus mapping with value false |
| `Recommender.Candidates` | utils/recommender.py:11-23 | the list before deduplication starts with the missed required habits; it adds at most the three boosters, and none when the day does not call for them |
| `Recommender.Unique` | utils/recommender.py:26 | the deduplicated list has no duplicates, holds exactly the input's elements and is no longer than the input |
| `Recommender.UniqueOfDistinct` | utils/recommender.py:26 | deduplicating a list without duplicates returns it unchanged |
| `Recommender.UniquePrefix` | utils/recommender.py:26 | deduplication keeps first occurrences: the deduplicated front of a list is a prefix of the deduplicated whole |
| `Recommender.Take` | utils/recommender.py:27 | `s[:n]` is a prefix of `s` whose length is the smaller of `len(s)` and `n` |
| `Recommender.Suggestions` | utils/recommender.py:1-27 | the returned list has at most 3 names and no duplicates, and is a prefix of the deduplicated candidates |
| `Recommender.SuggestHabits` | utils/recommender.py:1-27 | returns the specification list `Suggestions`: at most 3 names, no duplicates, each a missed required habit or a not-done booster on a day that calls for boosters |
| `Recommender.SuggestionsSound` | utils/recommender.py:14-27 | every suggestion is a required habit mapped to false, or (only when alignment < 0.5 or the mood is 😭/😤) a booster present in the bonus mapping with value false; no bonus habit outside the boosters is ever suggested |
| `Recommender.RequiredFirst` | utils/recommender.py:14-27 | the first missed required habits, in mapping order, open the list ahead of any booster; with three or more missed, the list is exactly the first three |
| `Recommender.NoBoostOnlyRequired` | utils/recommender.py:19-27 | when alignment ≥ 0.5 and the mood is neither 😭 nor 😤, the list is the first three missed required habits and no bonus habit |
| `Recommender.AllRequiredDoneNoSuggestions` | utils/recommender.py:14-19 | with every required habit done and no call for boosters, the list is empty |
| `Recommender.BoostDayBoostersOnly` | utils/recommender.py:14-27 | with alignment < 0.5 or the mood 😭/😤, and every required habit done, the list is exactly the boosters present and not done, in their fixed order |
| `Recommender.BoostDayMissedThenBoosters` | utils/recommender.py:14-27 | with alignment < 0.5 or the mood 😭/😤, and no required habit named like a booster, the list is the missed required habits followed by the boosters present and not done in their fixed order, cut to three |
| `Recommender.PerfectDayNoSuggestions` | utils/recommender.py:19 | a perfect day scores 1.0, and the list computed from that score is empty |
| `Recommender.NeutralDaySuggestions` | utils/recommender.py:14-27 | the 2-of-7 example day scores 0.314, and the suggestions computed from that score are Asr, Maghrib, Isha |
| `Analytics.IsEmpty` | utils/analytics.py:4 | a frame with no rows or no columns is empty; a non-empty frame has a row and a column |
| `Analytics.Cell` | utils/analytics.py:11 | a column the row lacks reads as null; a column the row holds reads as exactly that row's cell, and only such a cell is ever returned as a value |
| `Analytics.Completed` | utils/analytics.py:11-13 | a cell counts as done exactly when it holds true; null and false do not |
| `Analytics.Series` | utils/analytics.py:11-13 | the boolean column has one entry per row, each the row's cell read as done or not |
| `Analytics.TrailingTrue` | utils/analytics.py:14-20 | the count is at most the length, the last `count` entries are all true, and the entry just before them, if any, is false |
| `Analytics.TrailingTrueUnique` | utils/analytics.py:14-20 | any count with an all-true suffix that cannot be extended is the trailing count |
| `Analytics.Streak` | utils/analytics.py:3-22 | 0 for an empty frame or a missing column; otherwise the last `n` rows are done and the row before them, if any, is not |
| `Analytics.Append` | utils/logger.py:33-40 | saving a check-in keeps the earlier rows and adds the new row last; the first save takes the columns from the check-in's own keys (header written), later saves keep the columns already written |
| `Analytics.CalculateStreak` | utils/analytics.py:3-22 | 0 for an empty frame or a missing column; otherwise the last `streak` rows are done and the row before them is not, and the result lies between 0 and the row count |
| `Analytics.LatestMissedNoStreak` | utils/analytics.py:12-20 | if the newest row is false or null, the streak is 0 whatever earlier rows hold |
| `Analytics.AllDoneFullStreak` | utils/analytics.py:14-20 | if every row is done and the column exists, the streak is the row count |
| `Analytics.MissedThenDoneStreak` | utils/analytics.py:14-20 | for a history of one missed row followed by N done rows, the streak is N |
| `Analytics.AppendDoneExtendsStreak` | utils/analytics.py:14-20 | saving a row that completes the habit, as the first save or with the column present, raises the streak by one |
| `Analytics.AppendMissedResetsStreak` | utils/analytics.py:14-20 | saving a row that misses the habit or leaves it null resets the streak to 0 |

## Left out

- app.py (the Streamlit form, page layout and display-only message thresholds) is not part of this model. It only wires the three computations together; `PerfectDayNoSuggestions` and the two example lemmas restate that wiring.
- utils/sentiment.py wraps TextBlob's polarity, a foreign library, so it is not part of this model. The polarity is a parameter of the scorer, and the range results assume it lies in [-1, 1], as TextBlob promises.
- utils/logger.py (CSV creation and appending, `datetime.now()`) and pages/progress_dashboard.py (CSV reading and charts) are I/O and presentation and are not part of this model. `Analytics.Append` stands for the effect of one append on the history, and the history reaches `CalculateStreak` as a `Table` value.
- Scoring.Round3: rounds exact reals to the nearest thousandth with ties going up. Python's `round(x, 3)` works on binary floats and sends ties to even. The model is exact over `real` and says nothing about float ties or IEEE-754 error.
- Analytics.Append: an empty history (no rows) stands for the log file not existing yet. Later saves write without a header, so the CSV places values by position. A check-in whose keys differ from the header's would misalign there, while the model stores cells by column name.
- Analytics.CalculateStreak: does not model pandas dtype coercion beyond null→false and booleans. For example, it does not cover `astype(bool)` on strings or numbers. It also leaves out the diagnostic `print` for a missing column.
- Analytics.CalculateStreak: takes the rows in the order given, as the source does. It does not sort by timestamp, and a history out of chronological order gives a streak over that order.
- Scoring.CalculateAlignmentScore: habit values are booleans, as the form produces. Python's `sum` over other value types is not modelled.
