# Language-tutor learning core in Dafny

This project models the pure decision logic of an AI language-tutor
backend and proves properties about it. It has three services.

- **Spaced repetition** (`app/services/learning/srs.py`). An SM-2 variant
  schedules vocabulary cards. A review grade of 0..5 and the response
  latency update a card's ease factor, interval, repetition count,
  counters and next review time. Read-only queries do the rest:
  - pick the due and new cards;
  - forecast the upcoming workload;
  - compute the inputs of the forgetting curve;
  - classify mastery.

  The same file holds an adaptive-difficulty controller and a content
  ranker.
- **Gamification** (`app/services/gamification/engine.py`). It covers:
  - XP awards with a streak multiplier;
  - the level table;
  - achievement checks;
  - daily streaks;
  - daily challenges;
  - league points;
  - leaderboard tiers.
- **Pronunciation scoring** (`app/services/speech/processor.py`). These are
  the parts that run after transcription:
  - Levenshtein word similarity;
  - per-word scores;
  - accuracy, completeness and fluency percentages;
  - first-wrong-sound detection;
  - feedback and suggestions.

Modules follow the source's structure:

| module | models |
|---|---|
| `Prelude` | Python arithmetic and slicing the services rely on. This covers `int()` truncation, `s[:n]`, filtering comprehensions, `sum(1 for …)`, `.date()` on whole-second timestamps, and `dict.get` defaults via `Option.GetOr`. |
| `Ranking` | Python's stable `list.sort(key=…, reverse=True)`, as an insertion sort over a two-part key. |
| `SrsReview` | `calculate_next_review` and its helpers. |
| `SrsQueries` | `get_due_cards`, `estimate_workload`, `predict_retention` and `get_mastery_level`. |
| `Adaptive` | `AdaptiveLearning`. |
| `Gamification` | `GamificationEngine`. |
| `Levenshtein` | `_calculate_word_similarity`. |
| `Pronunciation` | The rest of the pronunciation evaluation. |

Modelling choices:
- Python floats are exact reals. Timestamps are whole seconds, and a
  calendar day is the timestamp divided by 86400, rounded down.
- The ambient clock (`datetime.utcnow()`) is an explicit `now` parameter.
- Python default arguments are explicit parameters.
- An exception the source would raise becomes a `Result.Failure`.

## Model

| member | source | states |
|---|---|---|
| Prelude.Trunc | app/services/gamification/engine.py:147 | `int(x)` rounds toward zero. For x ≥ 0 the result is the largest whole number at most x; for x < 0 it is the smallest whole number at least x. |
| Prelude.Clamp | app/services/learning/srs.py:385 | `max(lo, min(hi, x))` lies in [lo, hi], is x when x is in range, lo below it and hi above it. |
| Prelude.TruncScaledGrows | app/services/learning/srs.py:128-133 | Scaling a non-negative number by a factor of at least 1 never truncates lower. |
| Prelude.QuotientOfProduct | app/services/learning/srs.py:151-154 | If r × d = s with d > 0, then r = s / d. |
| Prelude.DayOf | app/services/learning/srs.py:298 | `.date()` of a timestamp is the unique day d with d·86400 ≤ t < (d+1)·86400, also before the epoch. |
| Prelude.Filter | app/services/learning/srs.py:224-227 | A comprehension keeps exactly the elements meeting the condition and nothing else, as many as satisfy it (its length is `Count`). It yields [] when no element qualifies. |
| Prelude.Prefix | app/services/learning/srs.py:242-243 | `s[:n]` is a prefix of `s` of length min(n, \|s\|) for n ≥ 0, and drops \|n\| elements from the end for n < 0. |
| Prelude.FilterAppend | app/services/learning/srs.py:224-227 | A comprehension keeps the original order: filtering a concatenation concatenates the filtered parts. |
| Prelude.FilterSingleton | app/services/learning/srs.py:224-227 | A one-element list keeps its element exactly when the condition holds; with FilterAppend this fixes the result element by element. |
| Prelude.Count | app/services/learning/srs.py:296-299 | `sum(1 for …)` never exceeds the number of elements. |
| Prelude.CountMonotone | app/services/learning/srs.py:296-299 | A condition implied by another counts at least as many elements. |
| Prelude.FilterKeepsAll | app/services/gamification/engine.py:361 | Filtering by a condition every element meets returns the list unchanged. |
| Ranking.InsertPermutes | app/services/learning/srs.py:230-233 | One insertion step of the sort adds exactly the inserted element, as a multiset. |
| Ranking.InsertKeepsSorted | app/services/learning/srs.py:230-233 | Inserting into a list sorted by descending key keeps it sorted. |
| Ranking.InsertKeepsTies | app/services/learning/srs.py:230-233 | For every key value, the elements with that key keep their relative order (stability). |
| Ranking.SortByRank | app/services/learning/srs.py:430 | The stable descending sort is a permutation, ordered by key, and keeps the input order among equal keys. |
| SrsReview.NewCard | app/services/learning/srs.py:36-54 | A fresh card has ease 2.5, interval 1, no repetitions and no reviews, is unscheduled, and satisfies the review invariants. |
| SrsReview.TimeFactor | app/services/learning/srs.py:186-202 | The latency factor lies in [0.8, 1.2] for non-negative latencies. It is above 1 exactly for answers faster than 3000 ms, 1 at 3000 ms, 1.2 at 0 ms, and saturates at 0.8 from 9000 ms. |
| SrsReview.TimeFactorNonIncreasing | app/services/learning/srs.py:196-202 | A slower answer never gets a larger factor. |
| SrsReview.EaseDelta | app/services/learning/srs.py:173-176 | The SM-2 delta is positive only for grade 5 and zero only for grade 4. It is at most −0.32 for failing grades. |
| SrsReview.EaseDeltaTable | app/services/learning/srs.py:176 | The delta formula takes the values −0.8, −0.54, −0.32, −0.14, 0, 0.1 for grades 0..5. |
| SrsReview.EaseDeltaIncreasing | app/services/learning/srs.py:176 | A better grade gives a strictly larger delta. |
| SrsReview.NewEase | app/services/learning/srs.py:162-184 | The new ease is the old ease plus the latency-weighted delta, clamped to [1.3, 2.5], and equals the unclamped value whenever that is in range. |
| SrsReview.NewEaseMonotoneInQuality | app/services/learning/srs.py:176-184 | With a positive time factor, a better grade never yields a lower ease. |
| SrsReview.ClampInterval | app/services/learning/srs.py:139-140 | The stored interval is in [1, 365] and equals the computed one whenever that is in range. |
| SrsReview.PassingInterval | app/services/learning/srs.py:121-133 | On a pass the interval becomes 1 on the first pass and 6 on the second (7 with a perfect grade). After that it is int(interval × new ease), and a perfect grade multiplies by 1.3 and truncates again. |
| SrsReview.PassingIntervalGrows | app/services/learning/srs.py:128-133 | Past the first two passes, a pass with ease ≥ 1 never shortens a positive interval. |
| SrsReview.WholeScaledGrows | app/services/learning/srs.py:128-133 | A whole number scaled by a factor of at least 1 and truncated is no smaller. |
| SrsReview.RunningMean | app/services/learning/srs.py:151-154 | The incremental average times the new count equals the old total plus the new sample. |
| SrsReview.Review | app/services/learning/srs.py:75-160 | One review. A failing grade (< 3) resets repetitions to 0 and the interval to 1 and counts an incorrect answer. A pass advances repetitions, counts a correct answer and sets the clamped passing interval. Both branches store the clamped ease, schedule the next review interval days after now, stamp the review time, count the review, update the mean latency and log the transition. |
| SrsReview.ReviewPreservesValidity | app/services/learning/srs.py:139-148 | Every review keeps ease in [1.3, 2.5], interval in [1, 365] and total = correct + incorrect. |
| SrsReview.ReviewEaseMonotoneInQuality | app/services/learning/srs.py:98-102 | For the same card and latency, a better grade never yields a lower ease. |
| SrsReview.MatureIntervalNeverShrinks | app/services/learning/srs.py:127-140 | A passing review of a card past its first two passes never shortens its interval. |
| SrsReview.ReviewKeepsMeanResponseTime | app/services/learning/srs.py:151-154 | The incremental update keeps the average latency equal to the arithmetic mean of every latency the card has seen. |
| SrsReview.MeanTimesCount | app/services/learning/srs.py:151-154 | The mean of a history times its length is its total. |
| SrsReview.ScenarioFirstPass | app/services/learning/srs.py:119-124 | A new card graded 4 at 2000 ms graduates with interval 1 and keeps ease 2.5. |
| SrsReview.ScenarioSecondPerfectPass | app/services/learning/srs.py:124-133 | The second pass with grade 5 gives interval int(6 × 1.3) = 7, with ease clamped at 2.5. |
| SrsReview.ScenarioLapse | app/services/learning/srs.py:111-116 | A failed review of a mature card resets it and lowers its ease. |
| SrsQueries.DueAndNewDisjoint | app/services/learning/srs.py:224-239 | No card is both due and new. |
| SrsQueries.IsDue | app/services/learning/srs.py:224-227 | A card is due when it has a review time at or before now (reference predicate for the due pool). |
| SrsQueries.IsNew | app/services/learning/srs.py:236-239 | A card is new when it has never passed and has no review time (reference predicate for the new pool). |
| SrsQueries.DaysOverdue | app/services/learning/srs.py:231 | `timedelta.days` rounds down: d whole days satisfy d·86400 ≤ now − next < (d+1)·86400, and d ≥ 0 iff the card is due. |
| SrsQueries.DuePool | app/services/learning/srs.py:224-227 | The due pool holds exactly the scheduled cards whose review time is at or before now. |
| SrsQueries.NewPool | app/services/learning/srs.py:236-239 | The new pool holds exactly the never-passed, unscheduled cards. |
| SrsQueries.ReviewQueue | app/services/learning/srs.py:230-233 | The due cards are ordered by more days overdue first, then lower ease. The result is a permutation of the due pool, and exact ties keep their input order. |
| SrsQueries.GetDueCards | app/services/learning/srs.py:204-246 | The review list is a prefix of the ordered due pool and the new list a prefix of the new pool, sliced as Python does: min(limit, total) cards for a non-negative limit, and the total minus |limit| (at least 0) for a negative one, likewise for `include_new`. The totals are the full pool sizes. |
| SrsQueries.DueBy | app/services/learning/srs.py:296-299 | The number of cards scheduled on or before a day never exceeds the number of cards. |
| SrsQueries.DueByMonotone | app/services/learning/srs.py:296-299 | A later day never has fewer cards scheduled by it. |
| SrsQueries.EstimateWorkload | app/services/learning/srs.py:276-305 | The forecast has one entry per day ahead (none for a non-positive horizon). Entry d is for today + d and counts the cards scheduled on or before that day. |
| SrsQueries.WorkloadNonDecreasing | app/services/learning/srs.py:294-299 | The forecast is cumulative: a later day's count is never smaller. |
| SrsQueries.WorkloadStartsWithDueCards | app/services/learning/srs.py:224-227 | Today's forecast count is at least the number of cards due right now. |
| SrsQueries.PredictRetention | app/services/learning/srs.py:248-274 | A card never reviewed has no curve (retention 0). Otherwise the curve's elapsed time is the whole days from the last review to the target instant, and its stability is interval × ease. |
| SrsQueries.RetentionPercent | app/services/learning/srs.py:259-274 | A value is given iff the card was never reviewed (0) or no whole day has elapsed on the curve (100). |
| SrsQueries.ValidCardHasPositiveStability | app/services/learning/srs.py:269-272 | For a card within the review invariants the stability is at least 1.3, so the exponent's division is defined. |
| SrsQueries.JustReviewedIsFullyRetained | app/services/learning/srs.py:266-274 | Right after a review, the retention estimate for today is 100%. |
| SrsQueries.LevelFor | app/services/learning/srs.py:330-341 | Mastered iff ≥ 90, Familiar iff in [70, 90), Learning iff in [40, 70), New iff < 40. |
| SrsQueries.LevelForMonotone | app/services/learning/srs.py:330-341 | A higher mastery percentage never gives a lower level. |
| SrsQueries.Accuracy | app/services/learning/srs.py:315-316 | The answer accuracy is in [0, 1], and 0 for a card never answered. |
| SrsQueries.IntervalScore | app/services/learning/srs.py:319 | The interval score is at most 1, and non-negative for non-negative intervals. |
| SrsQueries.MasteryOf | app/services/learning/srs.py:307-351 | The mastery percentage is 30 × accuracy + 50 × interval credit (capped at 90 days) + 20 × ease position in [1.3, 2.5], and is in [0, 100] for a card within the ease bounds. The level and colour follow the thresholds. `is_mastered` holds iff the level is Mastered. The accuracy percentage is 100 × accuracy, in [0, 100]. |
| SrsQueries.MasteryMonotoneInInterval | app/services/learning/srs.py:319-327 | Lengthening the interval never lowers the mastery percentage or level. |
| SrsQueries.MasteryMonotoneInEase | app/services/learning/srs.py:321-327 | Raising the ease never lowers the mastery percentage or level. |
| SrsQueries.MasteryMonotoneInCorrectAnswers | app/services/learning/srs.py:315-327 | One more correct answer never lowers accuracy or the mastery percentage. |
| SrsQueries.QuotientGrowsByOne | app/services/learning/srs.py:316 | k/t ≤ (k+1)/(t+1) for 0 ≤ k ≤ t, t > 0. |
| SrsQueries.DivCrossMultiply | app/services/learning/srs.py:316 | Quotients with positive denominators compare by cross-multiplying. |
| SrsQueries.PerfectCardIsMastered | app/services/learning/srs.py:315-331 | A card always answered correctly, with an interval of at least 90 days and ease 2.5, scores exactly 100 and is Mastered. |
| SrsQueries.NewCardIsNew | app/services/learning/srs.py:339-341 | A freshly created card is classified New. |
| Adaptive.CalculateOptimalDifficulty | app/services/learning/srs.py:365-390 | The new difficulty is the last one (0.5 initially) plus half the accuracy error, clamped to [0.1, 0.9]: unchanged when in range, 0.1 below it, 0.9 above it. Both histories grow by exactly this step's entries. |
| Adaptive.NewControllerWellFormed | app/services/learning/srs.py:361-363 | A fresh controller satisfies the history invariant. |
| Adaptive.StepPreservesWellFormed | app/services/learning/srs.py:381-388 | Each step keeps the histories of equal length with every difficulty in range, so the step starts from an in-range difficulty. |
| Adaptive.StepDirection | app/services/learning/srs.py:376-385 | Accuracy below target never lowers the difficulty, accuracy above target never raises it, and accuracy on target leaves it unchanged. |
| Adaptive.ContentScoreBounds | app/services/learning/srs.py:411-425 | With difficulties in [0, 1], an item scores between its weakness bonus and that bonus plus 70. |
| Adaptive.ContentScore | app/services/learning/srs.py:411-425 | Reference definition of the score: 50 × difficulty fit, 30 per weak area covered, 20 if not completed. Its bounds and preferences are stated by ContentScoreBounds and ContentScorePreferences. |
| Adaptive.ContentScorePreferences | app/services/learning/srs.py:415-425 | An item closer to the target difficulty never scores lower. An uncompleted item scores exactly 20 more than the same item completed. |
| Adaptive.SelectContent | app/services/learning/srs.py:392-432 | The result is the whole pool, as a permutation, ordered by non-increasing score, and items with equal scores keep their pool order. |
| Gamification.BaseXp | app/services/gamification/engine.py:134 | The base XP is the table value of a known event type and 0 for an unknown one. |
| Gamification.BonusesAgreeWithTable | app/services/gamification/engine.py:38-49 | The first-of-day and perfect-score bonuses are the table's entries, 15 and 25. |
| Gamification.RawXp | app/services/gamification/engine.py:134-145 | The pre-multiplier XP is the base XP plus the optional first-of-day and perfect bonuses. |
| Gamification.StreakMultiplier | app/services/gamification/engine.py:137 | The multiplier is at most 1.5 and at least 1 for non-negative streaks. It exceeds 1 exactly for positive streaks and is 1.5 from 25 days on. |
| Gamification.BonusPercent | app/services/gamification/engine.py:151 | The displayed bonus is min(2 × streak, 50) percent. |
| Gamification.ScaledXp | app/services/gamification/engine.py:147 | Truncating raw × m gives at least raw for m ≥ 1, at most 1.5 × raw for m ≤ 1.5, and exactly raw for m = 1. |
| Gamification.TruncScaledAtLeast | app/services/gamification/engine.py:147 | Truncating a non-negative amount scaled by at least 1 never gives less than truncating the amount. |
| Gamification.TruncScaledAtMost | app/services/gamification/engine.py:147 | Truncating a non-negative amount scaled by at most 1.5 never exceeds 1.5 times the amount. |
| Gamification.TruncScaleMonotone | app/services/gamification/engine.py:147 | For a non-negative amount, truncating it scaled by a larger factor never gives less. |
| Gamification.ScaledXpMonotone | app/services/gamification/engine.py:147 | A larger multiplier never awards less. |
| Gamification.CalculateXp | app/services/gamification/engine.py:115-158 | The award is int(raw × multiplier), between raw and 1.5 × raw for non-negative streaks and exactly raw with no streak. A streak bonus with min(2 × streak, 50) percent is reported exactly for positive streaks. |
| Gamification.StreakMultiplierMonotone | app/services/gamification/engine.py:137 | A longer streak never has a smaller multiplier. |
| Gamification.XpMonotoneInStreak | app/services/gamification/engine.py:137-147 | A longer streak never earns less XP for the same event. |
| Gamification.ThresholdsStepUp | app/services/gamification/engine.py:52-73 | The level table has 20 entries, starts at 0 and strictly increases. |
| Gamification.ThresholdsAscending | app/services/gamification/engine.py:52-73 | Any earlier threshold is below any later one. |
| Gamification.ThresholdsOrder | app/services/gamification/engine.py:52-73 | Index order and threshold order agree, in both directions. |
| Gamification.ScanLevels | app/services/gamification/engine.py:167-173 | The scan stops at the first threshold not reached. The level is in [1, 20], its threshold is reached, and the next threshold is not. |
| Gamification.LevelFromXp | app/services/gamification/engine.py:160-195 | The level is the last table entry reached, 1 for negative XP. XP in the level is XP minus the level's threshold. Below the top level the span is the gap to the next threshold; at the top it is 2000. The span is positive, and XP in level plus XP until next equals it. The progress percentage is XP in level / span × 100, which is in [0, 100) below the top level. |
| Gamification.PercentBelowHundred | app/services/gamification/engine.py:186 | A part strictly smaller than a positive whole is a percentage in [0, 100). |
| Gamification.LevelMonotone | app/services/gamification/engine.py:160-195 | More XP never means a lower level. |
| Gamification.ScanLevelsMonotone | app/services/gamification/engine.py:167-173 | The threshold scan never finds a lower level for more XP. |
| Gamification.CheckAchievements | app/services/gamification/engine.py:197-247 | An entry is returned iff it is not yet earned and its condition holds (missing counts 0, missing level 1). As many entries are returned as qualify, and the result is [] when nothing qualifies. |
| Gamification.Holds | app/services/gamification/engine.py:218-236 | Reference predicate for one achievement condition, with the source's defaults: missing counts 0, missing level 1, missing special events none. |
| Gamification.CheckAchievementsInTableOrder | app/services/gamification/engine.py:214-245 | Awards come in table order: checking a table split in two returns the first part's awards followed by the second part's. |
| Gamification.CheckAllAchievements | app/services/gamification/engine.py:214-247 | Against the service's own 23-entry table, an achievement is awarded iff it is not yet earned and its condition holds; at most 23 are awarded. |
| Gamification.Ids | app/services/gamification/engine.py:240 | The ids of the newly earned achievements, one per entry, in order. |
| Gamification.RecheckAwardsNothing | app/services/gamification/engine.py:214-216 | Adding the newly earned ids to the earned list and checking again awards nothing (idempotence). |
| Gamification.UpdateStreak | app/services/gamification/engine.py:249-298 | A first study starts a streak of 1. A study the same day changes nothing, and one the next day extends the streak by one. Any other day gap, including a backwards one, restarts at 1 and reports the lost streak. |
| Gamification.SecondStudySameDayKeepsStreak | app/services/gamification/engine.py:274-283 | A second study on the same day keeps the streak the first one set, and reports it neither continued nor broken. |
| Gamification.DailyStudyExtendsStreak | app/services/gamification/engine.py:284-290 | Studying on each of n consecutive days extends the streak by exactly n. |
| Gamification.PlanFrom | app/services/gamification/engine.py:360-372 | The plan is for today. It offers at most 3 challenges, each from the list and not completed today, as a prefix of the open ones in list order. Fewer than 3 are offered only when every open challenge is included. The bonus is "daily_all" worth 50 XP. |
| Gamification.GenerateDailyChallenge | app/services/gamification/engine.py:300-372 | Today's plan: for today, at most 3 challenges, each from the fixed list and not completed today, as a prefix of the open ones in list order. Fewer than 3 only when every open challenge is offered. The bonus is "daily_all" worth 50 XP. Level and language do not influence it. |
| Gamification.CompletedChallengesLeaveThePlan | app/services/gamification/engine.py:361 | A challenge completed today is never offered again that day. |
| Gamification.FreshDayOffersFirstThree | app/services/gamification/engine.py:317-365 | With nothing completed, the plan is the conversation, vocabulary and pronunciation challenges. |
| Gamification.LeaguePointsMonotone | app/services/gamification/engine.py:374-385 | More XP, streak or achievements never lower the league points. One achievement is worth five streak days. |
| Gamification.LeaguePoints | app/services/gamification/engine.py:374-385 | The points exceed the week's XP by exactly 10 per streak day plus 50 per achievement, so they are at least the XP for non-negative counts and equal to it when both counts are 0. |
| Gamification.PercentileAtMost | app/services/gamification/engine.py:389-397 | The percentile rank/total × 100 is at most c iff 100 × rank ≤ c × total. |
| Gamification.LeaderboardTier | app/services/gamification/engine.py:387-400 | The tier is Diamond, Platinum, Gold or Silver for a percentile ≤ 1, 5, 15 or 35 respectively, and Bronze otherwise. A population of 0 is the division error. |
| Gamification.TierMonotoneInRank | app/services/gamification/engine.py:389-400 | In a fixed population, a worse rank never gives a better tier. |
| Levenshtein.Min3 | app/services/speech/processor.py:220-224 | The minimum of three values is one of them and at most each. |
| Levenshtein.EditDistance | app/services/speech/processor.py:209-224 | Reference definition of the table cell dp[i][j], as a recursion; its laws are stated by the Distance lemmas below. |
| Levenshtein.Distance | app/services/speech/processor.py:226 | Reference definition of dp[len1][len2]. |
| Levenshtein.DistanceAtMostLonger | app/services/speech/processor.py:210-226 | The edit distance never exceeds the longer length. |
| Levenshtein.DistanceAtLeastLengthGap | app/services/speech/processor.py:210-226 | The edit distance is at least the difference of the lengths. |
| Levenshtein.DistanceZeroIffEqual | app/services/speech/processor.py:210-226 | The distance is zero iff the words are equal. |
| Levenshtein.DistanceSymmetric | app/services/speech/processor.py:210-226 | The distance from a to b equals the distance from b to a. |
| Levenshtein.CellFromNeighbours | app/services/speech/processor.py:217-224 | Each inner table cell is the cheapest of deletion, insertion and substitution from its neighbours. |
| Levenshtein.ComputeRow | app/services/speech/processor.py:217-224 | Filling row i from row i−1 yields exactly the distances of the first i characters of a against every prefix of b. |
| Levenshtein.ComputeDistance | app/services/speech/processor.py:209-226 | The bottom-up table's last cell is the recursive edit distance. |
| Levenshtein.Similarity | app/services/speech/processor.py:200-229 | The similarity is in [0, 1] and is 1 iff the words are equal. It is 0 when exactly one word is empty. For two non-empty words it is 0 iff the distance is the longer length. |
| Levenshtein.RatioBounds | app/services/speech/processor.py:229 | distance/longer is in (0, 1] for a positive distance, and 1 iff they are equal. |
| Levenshtein.DivMonotone | app/services/speech/processor.py:229 | Dividing by a positive length keeps order. |
| Levenshtein.SimilaritySymmetric | app/services/speech/processor.py:200-229 | The similarity of a to b equals that of b to a. |
| Levenshtein.SimilarityAtMostLengthRatio | app/services/speech/processor.py:200-229 | Words of different lengths are at most 1 − (length gap / longer length) similar. |
| Levenshtein.ComputeSimilarity | app/services/speech/processor.py:200-229 | The source's procedure, with the table method, returns the similarity. |
| Pronunciation.ScoreWord | app/services/speech/processor.py:144-166 | A word's score is in [0, 100]. For a spoken word, the score is 100 × the similarity of the two words, the spoken text is kept, and the word counts as correct iff the similarity is above 0.8. An exactly spoken word scores 100 and is correct. A missing word scores 0, is incorrect and has spoken "". |
| Pronunciation.ScoreWords | app/services/speech/processor.py:144-166 | There is one score per expected word, in order. |
| Pronunciation.CountCorrect | app/services/speech/processor.py:151-152 | The correct count never exceeds the number of scores. |
| Pronunciation.CountCorrectAll | app/services/speech/processor.py:151-152 | When every score is correct, the count is the number of words. |
| Pronunciation.CountCorrectNone | app/services/speech/processor.py:151-152 | When no score is correct, the count is 0. |
| Pronunciation.ComputeWordScores | app/services/speech/processor.py:141-166 | The source's scoring loop produces exactly the word scores and their correct count. |
| Pronunciation.Percent | app/services/speech/processor.py:169-172 | part/whole × 100 (0 for an empty whole) is non-negative and at most 100 for a part no larger than the whole. It is 100 iff part = whole and 0 iff part = 0. |
| Pronunciation.PercentOf | app/services/speech/processor.py:169-172 | The real-valued facts behind the percentage. |
| Pronunciation.QuotientAtMostOne | app/services/speech/processor.py:172 | A part no larger than a positive whole gives a ratio of at most 1. |
| Pronunciation.Accuracy | app/services/speech/processor.py:169 | Accuracy is in [0, 100], 0 with no words, and equal to correct/words × 100. It is 100 iff every word is correct and 0 iff none is. |
| Pronunciation.Completeness | app/services/speech/processor.py:172 | Completeness is in [0, 100], 0 with no expected words, and 100 iff at least as many words were spoken as expected. Otherwise it is spoken/expected × 100. |
| Pronunciation.PerfectReading | app/services/speech/processor.py:144-172 | Reading every expected word exactly scores 100 accuracy and completeness. |
| Pronunciation.Silence | app/services/speech/processor.py:144-172 | Saying nothing scores 0 accuracy and completeness. |
| Pronunciation.Overall | app/services/speech/processor.py:178 | The weighted overall score is in [0, 100] for inputs in range, and equals the common value when all three agree. |
| Pronunciation.Gaps | app/services/speech/processor.py:236-239 | There is one pause per word after the first: its start minus the previous word's end, with missing times as 0. |
| Pronunciation.FluencyBand | app/services/speech/processor.py:246-254 | 95 iff the mean pause < 0.3 s, 85 iff in [0.3, 0.5), 70 iff in [0.5, 0.8), 55 iff ≥ 0.8. |
| Pronunciation.FluencyBandNonIncreasing | app/services/speech/processor.py:246-254 | Longer pauses never earn a higher fluency score. |
| Pronunciation.EstimateFluency | app/services/speech/processor.py:231-254 | Fluency is 80 with fewer than two timed words, otherwise the band of the mean pause. It is always in [55, 95]. |
| Pronunciation.ShortPausesAreFluent | app/services/speech/processor.py:244-248 | When every pause is shorter than 0.3 s, fluency is 95. |
| Pronunciation.LongPausesAreHalting | app/services/speech/processor.py:244-254 | When every pause is at least 0.8 s, fluency is 55. |
| Pronunciation.FirstMismatchFrom | app/services/speech/processor.py:281-289 | The scan from i finds the first differing position within the shorter word, or reports that none exists. |
| Pronunciation.FirstMismatch | app/services/speech/processor.py:281-289 | The first mismatch is a position inside both words where they differ, with equal prefixes before it. None means the words agree on the shorter length. |
| Pronunciation.PairError | app/services/speech/processor.py:278-289 | An error is reported iff the words differ, their similarity is below 0.9, and they differ within the shorter length. It names the expected word, the two different sounds, and the first position where the words differ (FirstMismatch). |
| Pronunciation.PrefixPairsReportNothing | app/services/speech/processor.py:281-289 | A word that is a prefix of the other yields no error. |
| Pronunciation.AsSeq | app/services/speech/processor.py:283-288 | An optional error contributes zero or one entries. |
| Pronunciation.AllPhonemeErrors | app/services/speech/processor.py:278-289 | The errors are exactly the present PairErrors of `zip(expected, spoken)`, in pair order (`Present(PairErrors(…))`), and [] once either list is empty. There is at most one error per pair, and every error names an expected word and two different sounds. |
| Pronunciation.AllPhonemeErrorsCount | app/services/speech/processor.py:278-289 | The number of errors equals the number of word pairs, up to the shorter list, whose PairError is reported. |
| Pronunciation.AllPhonemeErrorsComplete | app/services/speech/processor.py:278-289 | Every word pair that reports an error contributes exactly that error to the list. |
| Pronunciation.ErrorPairCountShift | app/services/speech/processor.py:278 | Counting erroneous pairs over the first n pairs is the first pair plus the count over the shifted lists. |
| Pronunciation.ExactReadingHasNoErrors | app/services/speech/processor.py:278-279 | Words spoken exactly as expected produce no errors. |
| Pronunciation.ExtraWordsIgnored | app/services/speech/processor.py:278 | Words spoken beyond the expected ones never change the errors. |
| Pronunciation.AnalyzePhonemeErrors | app/services/speech/processor.py:256-291 | Exactly min(number of errors, 5) errors are reported: the first ones found, in order, or all of them when there are at most 5. |
| Pronunciation.FeedbackFor | app/services/speech/processor.py:305-312 | Excellent iff accuracy ≥ 90, Good iff in [75, 90), NiceEffort iff in [60, 75), KeepGoing iff < 60. |
| Pronunciation.FeedbackMonotone | app/services/speech/processor.py:305-312 | Higher accuracy never earns weaker feedback. |
| Pronunciation.ErrorSounds | app/services/speech/processor.py:325 | The sound set is exactly the expected sounds of the reported errors. |
| Pronunciation.Suggestions | app/services/speech/processor.py:314-327 | Slow down iff accuracy < 80. Practise the flow iff fluency < 70. Say every word iff completeness < 90. Name the sounds iff there are errors, with exactly their sound set. Suggestions appear in that fixed order. |
| Pronunciation.ErrorsHaveSounds | app/services/speech/processor.py:324-327 | Reported errors always give a non-empty sound set. |
| Pronunciation.EvaluatePronunciation | app/services/speech/processor.py:115-198 | The assessment combines the word scores, accuracy, completeness, fluency, the weighted overall score (in [0, 100]), the first five errors, and the feedback and suggestions computed from them. |
| Pronunciation.PerfectFluentReading | app/services/speech/processor.py:115-198 | An exact reading with short pauses gets Excellent feedback, no suggestions and no errors. |

## Left out

- The clock: `datetime.utcnow()` is the `now` parameter. Timestamps are whole seconds; sub-second precision does not affect any modelled branch except same-second comparisons.
- Floating point: every float is an exact real. `round(…, 1)` on the returned percentages is not modelled; the model keeps the unrounded values, which the source also uses for its own decisions.
- `math.exp` in `predict_retention`: `SrsQueries.PredictRetention` returns the curve's inputs (elapsed days, stability) instead of the exponential. `SrsQueries.RetentionPercent` evaluates it only where no exponential is needed.
- Gamification.BonusPercent: states the exact-real value min(2 × streak, 50). In binary floating point, `int((m - 1) * 100)` can come out one lower for some streaks.
- Gamification.ScaledXp: truncates the exact-real product raw × multiplier. The source truncates a binary floating-point product, which can come out one lower: at streak 8 the multiplier is 1.16 and 50 × 1.16 evaluates to 57.99999999999999, so the source awards 57 where the model gives 58.
- Gamification.CalculateXp: inherits the ScaledXp gap, so its award can be one above the source's for some event and streak pairs (for example 58 against 57 for a 50 XP event at streak 8).
- SrsReview.PassingInterval: truncates the exact-real products interval × new ease and interval × 1.3. The source multiplies floats, and the truncation can come out one lower: a new card graded 3, 3, 4, 3, 5, 3 at 3000 ms reaches interval 152 in floating point and 153 here.
- SrsReview.Review: inherits the PassingInterval gap in the stored interval and hence in the next review time.
- In-place updates: `calculate_next_review` mutates and returns the caller's card, and `calculate_optimal_difficulty` appends to the controller's own histories. `SrsReview.Review` and `Adaptive.CalculateOptimalDifficulty` instead return the updated record, which holds the same field values.
- SrsQueries.RetentionPercent: gives 100 for a zero-day curve even when its stability is 0, where the source's `-0 / 0.0` raises ZeroDivisionError. A valid card never has stability 0 (`SrsQueries.ValidCardHasPositiveStability` proves it is at least 1.3).
- Display strings are left out as payload: achievement names and descriptions, challenge titles and icons, the XP bonus sentence, the feedback sentences, ISO date strings and `earned_at` timestamps.
- Gamification.CheckAchievements: takes the achievement table as a parameter, so its order and count lemmas hold for any table; `Gamification.CheckAllAchievements` applies it to `Gamification.Achievements`, the 23 entries of the source's table.
- Gamification.GenerateDailyChallenge: the user's level and language are accepted and ignored, as in the source; the plan always comes from the fixed five-entry list.
- Gamification.LeaderboardTier: has no contract for a negative user count. The source's division gives a meaningless percentile there.
- `LEARNING_STEPS` and `EASY_INTERVAL` are declared in `srs.py` but never used by it, so they are not modelled.
- The controller's histories are unbounded sequences, as in the source, which never trims them.
- Levenshtein.ComputeDistance: keeps only the previous row of the table instead of the full matrix; each cell's value is the same.
- Speech I/O: transcription, speech synthesis, `get_word_pronunciation`, `_get_ipa` and `_split_syllables` call external services or are placeholders. The model takes the transcript, the word lists and the word timings as inputs.
- `lower().split()` on the texts: the word lists are inputs.
- The language argument and the per-language common-error table in `_analyze_phoneme_errors` do not affect any result, so they are not modelled.
- Pronunciation.ErrorSounds: is a set; the order of Python's `', '.join(set)` in the suggestion text is unspecified and is not modelled.
- The rest of the repository: the AI tutor, HTTP API, authentication, database models and configuration are outside this model.
