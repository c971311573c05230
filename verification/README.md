# Adaptive learning and analytics core, modelled in Dafny

This project models the adaptive-learning back end of an AI quiz platform.

- **Analytics engine.** Records each learner's events and keeps per-question counters. It turns an ordered list of answers into a quiz report and splits a learner's event stream into sessions. It summarises those sessions into a learning history and aggregates the history into analytics.
- **Adaptive engine.** Keeps one learner profile per user and updates it from a history or a quiz report using exponential moving averages. From the profile it derives:
  - a performance level;
  - a Bloom's-taxonomy difficulty mix;
  - the focus topics for the next quiz, from weak topics and spaced repetition;
  - the question count and question types;
  - strengths and weaknesses;
  - a study plan with a three-tier practice schedule.

  Profiles can be exported and imported.
- **Quiz generator helpers.** The number of questions per Bloom level, the string-based answer grading, the fallback quiz, the brace slice taken from a model response, and the average response time.
- **Canvas helpers.** The grade clamp, and the mapping of a generated quiz onto Canvas's quiz-import shape.
- **Document helpers.** Overlapping sentence chunking and the reading-time estimate.

Everything is modelled with immutable datatypes and pure functions. Three conventions hold throughout:

- **Dictionaries.** A Python dictionary is an insertion-ordered association list `seq<(string, V)>` with distinct keys (module `Dicts`). Insertion order decides the result of every stable sort in the source.
- **Time.** Time is whole seconds supplied by the caller. Days are `floor(seconds / 86400)`. `timedelta.seconds` is the gap modulo 86400.
- **Numbers.** Floating-point values are exact `real`s. `int(x)` truncates toward zero (`Common.Trunc`). `np.polyfit(x, y, 1)[0]` is the closed-form least-squares slope (`Stats.Slope`).

The processes' global dictionaries become explicit values threaded through the functions:

- `Ledger.Engine` holds the event log and per-question counters;
- `Profile.Profiles` holds the learner profiles.

Where the written code and its design notes disagree, the model follows the code:

- **Question count.** `_adjust_question_count` computes the velocity branch and the pace branch from the same base count, and the velocity branch wins. The two adjustments do not compose (`Configurator.VelocityOverridesPace`).
- **Focus topics.** `_select_adaptive_topics` does not remove duplicates. A weak topic that is also due for review can appear twice among the focus topics.
- **Review interval.** The review interval is looked up with a possibly negative Python index. A mastery at or below -7/6 raises an IndexError, which `Configurator.ReviewInterval` models as `None`.
- **Unused threshold.** The 0.4 "struggling" threshold is defined but never read. A level is Struggling exactly when accuracy is below 0.6.
- **Spaced repetition inside `adjust_config`.** `adjust_config` stamps `last_session` with the current time before it selects topics. So no topic is ever due for spaced repetition there, and only weak topics are selected (`Configurator.AdjustConfigFocus`).

## Model

| member | source | states |
|---|---|---|
| Common.Trunc | quiz_generator.py:236 | `int(x)`: the integer part of x, rounding toward zero on both sides of 0 |
| Common.FloorDiv | adaptive_engine.py:230 | Floor division as in Python: the quotient is the largest q with q*b <= a for a positive divisor, and the mirror for a negative one |
| Common.LastN | analytics_engine.py:363 | `xs[-k:]`: min(len, k) elements that are a suffix of xs |
| Common.FirstN | adaptive_engine.py:413 | `xs[:k]`: min(len, k) elements that are a prefix of xs |
| Common.OccurrencesAppend | analytics_engine.py:115-120 | Counting a value in a concatenation adds the counts of the parts |
| Stats.SumAppend | analytics_engine.py:437-438 | The total of a concatenation is the sum of the totals |
| Stats.SumBounds | analytics_engine.py:471 | n values in [lo, hi] total between n*lo and n*hi |
| Stats.MeanBounds | analytics_engine.py:471 | The mean of values in [lo, hi] lies in [lo, hi] |
| Stats.MeanBelow | analytics_engine.py:188 | The mean of values all below a bound is below it |
| Stats.CountTrue | analytics_engine.py:101 | The number of correct answers never exceeds the number of answers |
| Stats.CountTrueAppend | analytics_engine.py:101 | Counting correct answers is additive over concatenation |
| Stats.CountTrueUniform | analytics_engine.py:101 | All-correct gives n and all-wrong gives 0 |
| Stats.FractionBounds | analytics_engine.py:104 | A part over a non-zero whole lies in [0, 1] |
| Stats.Divide | analytics_engine.py:109 | The quotient times the divisor gives back the dividend |
| Stats.QuotientIsDivision | analytics_engine.py:109 | The multiplicative characterisation of a quotient pins it to real division |
| Stats.Fraction | analytics_engine.py:405-408 | `c / n if n > 0 else 0`: in [0, 1], 0 for an empty whole, the exact quotient otherwise |
| Stats.Ratio | analytics_engine.py:314 | The share of true marks in a non-empty list: in [0, 1], the count of trues over the length |
| Stats.RatioUniform | analytics_engine.py:314 | All-correct windows score 1 and all-wrong windows score 0 |
| Stats.Line | analytics_engine.py:321 | The points a + b*i for x = 0..n-1 |
| Stats.SumLine | analytics_engine.py:321-322 | Closed form of the sum of a straight line's values |
| Stats.SlopeOfLine | analytics_engine.py:321-322 | The least-squares slope of points on a line with slope b is b |
| Stats.SlopeOfConstant | analytics_engine.py:321-322 | Points that are all equal have slope 0 |
| Sorting.Insert | adaptive_engine.py:246 | Insertion keeps a list ordered by score and adds exactly the new element |
| Sorting.Sort | adaptive_engine.py:246 | `sorted(key=score, reverse=desc)`: an ordered permutation of the input |
| Sorting.SortMembers | adaptive_engine.py:246 | The sort loses and invents no entries |
| Sorting.Top | adaptive_engine.py:247 | `sorted(...)[:k]`: at most k entries of the input, ordered, none ranked below anything left out |
| Sorting.TopSplit | adaptive_engine.py:247 | The prefix of a sorted list is ordered and ranks at least as high as everything after it |
| Sorting.Bottom | adaptive_engine.py:303 | `sorted(...)[-k:]`: at most k entries of the input, none ranked above anything left out |
| Sorting.BottomSplit | adaptive_engine.py:303 | The suffix of a sorted list ranks no higher than everything before it |
| Dicts.Keys | analytics_engine.py:122-125 | The keys of a dictionary in insertion order |
| Dicts.IndexOf | analytics_engine.py:118 | The position of the first entry with key k |
| Dicts.Get | analytics_engine.py:117-118 | `d.get(k)`: `None` exactly for a missing key, otherwise the value stored under k |
| Dicts.Put | analytics_engine.py:118-120 | `d[k] = v`: k now maps to v, every other key keeps its value, an existing key keeps its place and a new key goes last |
| Dicts.GetAppend | analytics_engine.py:122-125 | Appending a fresh key adds exactly that binding |
| Dicts.DistinctSameKeys | analytics_engine.py:122-125 | A dictionary comprehension over another's keys has distinct keys too |
| Dicts.PutWithin01 | adaptive_engine.py:353-354 | Storing a value in [0, 1] keeps every value of the map in [0, 1] |
| Dicts.DistinctValue | analytics_engine.py:122-125 | A dictionary maps a key to one value only |
| Dicts.Scale | adaptive_engine.py:206-209 | Dividing every value keeps the keys in order |
| Dicts.SumScale | adaptive_engine.py:206-209 | Dividing every value by c divides the total by c |
| Dicts.SumPositive | adaptive_engine.py:206-209 | Positive weights have a positive total, so renormalising never divides by zero |
| Tally.BucketIndex | analytics_engine.py:115-120 | The bucket that holds a given key |
| Tally.SumsUpdate | analytics_engine.py:118-120 | Replacing one bucket changes the totals by the difference |
| Tally.Add | analytics_engine.py:116-120 | One answer for key k: the key set grows by k only, exactly one more answer and one more correct answer if it was right, and other buckets untouched |
| Tally.Build | analytics_engine.py:115-120 | The `defaultdict` tally of (key, correct) observations: distinct keys, exactly those observed, totals summing to the number of answers and correct counts to the number right |
| Tally.BuildCounts | analytics_engine.py:115-120 | Every bucket counts exactly the answers with its key, and exactly the correct ones among them |
| Tally.CorrectForBound | analytics_engine.py:119-120 | A key's correct count never exceeds its answer count |
| Tally.OccurrencesPositive | analytics_engine.py:122-125 | An observed key has at least one answer, so its score never divides by zero |
| Tally.Scores | analytics_engine.py:135-138 | Each bucket's correct count over its total, 0 for an empty bucket, keyed as the tally |
| Tally.BuildBuckets | analytics_engine.py:115-120 | Every bucket holds at least one answer and no more correct answers than answers |
| Tally.Accuracy | analytics_engine.py:115-151 | Per-key accuracy of the observations: distinct keys, exactly the observed ones, each value in [0, 1] and equal to correct over total for that key |
| Tally.AccuracyKeys | analytics_engine.py:122-125 | The scored keys are exactly the observed keys |
| Tally.AccuracyWithin01 | analytics_engine.py:122-125 | Every per-key score lies in [0, 1] |
| Tally.AccuracyValues | analytics_engine.py:122-125 | Each per-key score is that key's correct answers over its answers |
| Answers.Marks | analytics_engine.py:214 | The correctness of each answer, in order |
| Answers.MarksSlice | analytics_engine.py:193-194 | The marks of a slice are the slice of the marks |
| Answers.Times | analytics_engine.py:187 | At most one time per answer |
| Answers.TimesMembers | analytics_engine.py:187 | A time is in the list exactly when some answer carries it |
| Answers.TimesAppend | analytics_engine.py:187 | The times of a concatenation are the times of the first part followed by those of the second, so the list keeps the answers' order |
| Answers.MultipleChoiceAnswers | analytics_engine.py:206 | At most one entry per answer |
| Answers.MultipleChoiceMembers | analytics_engine.py:206 | An answer is kept exactly when it is one of the answers and its question type is "multiple_choice" |
| Answers.MultipleChoiceAppend | analytics_engine.py:206 | The multiple-choice answers of a concatenation are those of the first part followed by those of the second, so the answers' order is kept |
| Answers.TopicObs | analytics_engine.py:116-120 | One (topic, correct) pair per answer, with the default topic "General" |
| Answers.BloomObs | analytics_engine.py:129-133 | One (Bloom level, correct) pair per answer, with the default "understand" |
| Answers.TypeObs | analytics_engine.py:142-146 | One (type, correct) pair per answer, with the default "unknown" |
| Answers.ObsMarksAre | analytics_engine.py:115-146 | All three tallies count the same correct answers |
| Answers.TopicKeys | analytics_engine.py:122-125 | The topics reported are exactly the topics of the answers |
| Answers.BloomKeys | analytics_engine.py:135-138 | The Bloom levels reported are exactly those of the answers |
| Answers.TypeKeys | analytics_engine.py:148-151 | The question types reported are exactly those of the answers |
| Report.Flips | analytics_engine.py:214-216 | The number of changes of correctness between neighbours is below the number of answers |
| Report.FlipsUniform | analytics_engine.py:214-216 | Uniform correctness has no changes |
| Report.IdentifyPatterns | analytics_engine.py:171-220 | The behaviour flags: all false on no answers; fatigue iff declining; never both improving and declining; declining/improving iff at least 5 answers and the second half's accuracy is 0.2 below/above the first's; consistent iff at least 3 answers and at most 0.3n changes; rushing iff some times are recorded and their mean is under 10 s; guessing iff some multiple-choice answers exist and their accuracy is in [0.2, 0.3] |
| Report.RunAtEnd | analytics_engine.py:293-298 | The running streak never exceeds the number of answers with that value |
| Report.LongestStreak | analytics_engine.py:284-300 | The longest streak is at most the number of answers with that value, and at least 1 when the last answer has it |
| Report.RunAtEndIsRun | analytics_engine.py:293-298 | The running streak is the longest run that ends at the last answer |
| Report.StreakIsLongestRun | analytics_engine.py:284-300 | The streak is the length of a longest run of equal answers: one run attains it and none is longer |
| Report.SomeStreakPositive | analytics_engine.py:284-300 | On a non-empty quiz one of the two streaks is at least 1 |
| Report.WindowSize | analytics_engine.py:309 | From 3 answers on, the window is between 1 and 3 and there are at least 3 windows |
| Report.WindowAccuracies | analytics_engine.py:312-315 | One accuracy per window position, n - w + 1 of them, each the share of correct answers in that window, each in [0, 1] |
| Report.WindowsIn01 | analytics_engine.py:312-315 | Window accuracies lie in [0, 1] |
| Report.Classify | analytics_engine.py:324-329 | A slope classifies into improving, declining or stable |
| Report.CalculateTrend | analytics_engine.py:302-329 | The trend is "insufficient_data" exactly for fewer than 3 answers |
| Report.UniformTrendIsStable | analytics_engine.py:302-329 | All-correct or all-wrong quizzes of 3 or more answers are stable |
| Report.GenerateReport | analytics_engine.py:86-169 | The report: correct + incorrect = total; correct is the number right; score in [0, 1], 0 for no answers, else correct over total; average time exactly when a time and answers are given, equal to time over answers; all per-key scores in [0, 1]; streaks bounded by the counts with one of them at least 1; trend insufficient iff under 3 answers; the flags of the patterns |
| Report.StreakFacts | analytics_engine.py:160-161 | The correct streak is at most the number right and the incorrect streak at most the number wrong |
| Report.ReportScoreKeys | analytics_engine.py:115-151 | The topic, Bloom and type scores have distinct keys, exactly the topics, levels and types of the answers |
| Report.OccurrencesCount | analytics_engine.py:101-103 | Counting trues and falses agrees with the correct and incorrect totals |
| Report.SteadyQuiz | analytics_engine.py:212-218 | A quiz of uniform correctness is consistent, shows neither fatigue nor improvement, and has a stable trend |
| Report.HalvesUniform | analytics_engine.py:193-197 | Half-accuracies of uniform halves are 1 or 0 |
| Report.FastQuizIsRushing | analytics_engine.py:186-189 | A quiz whose every answer took under 10 s is flagged as rushing |
| Report.TimesBelow | analytics_engine.py:187 | If every answer is timed under the bound, so is every recorded time |
| Report.CollapseIsFatigue | analytics_engine.py:191-201 | All right then all wrong, over at least 5 answers, is flagged as fatigue and decline |
| Ledger.UpdateQuestionStats | analytics_engine.py:56-73 | One attempt: attempts + 1; correct + 1 only if right, so correct stays within attempts; the mistake count of the given answer + 1 only for a wrong non-empty answer and no other changes; the average time unchanged without a time, else the new average times attempts is the old total plus the new time |
| Ledger.ReplayCounts | analytics_engine.py:56-62 | Over any sequence of answers, attempts grow by the number of answers and correct by the number right, never exceeding attempts |
| Ledger.TimesAllTimed | analytics_engine.py:68-73 | When every answer is timed, every one contributes a time |
| Ledger.ReplayMean | analytics_engine.py:68-73 | The running average is the total time over the attempts |
| Ledger.MeanStep | analytics_engine.py:68-73 | The incremental update keeps the average equal to total over count |
| Ledger.AverageIsMean | analytics_engine.py:68-73 | The stored average time equals the arithmetic mean of all the times |
| Ledger.FirstAttemptSetsAverage | analytics_engine.py:71-73 | The first timed attempt sets the average to its own time |
| Ledger.TrackQuizGeneration | analytics_engine.py:29-40 | Appends one quiz-generated event to that learner's log only, question counters untouched |
| Ledger.TrackAnswer | analytics_engine.py:42-84 | Updates that question's counters only and appends one answer event to that learner's log only |
| Ledger.TrackAnswerKeepsCounts | analytics_engine.py:56-62 | Tracking keeps correct within attempts for every question |
| Sessions.TimedeltaSeconds | analytics_engine.py:348 | `timedelta.seconds`: in [0, 86400), and the gap itself for gaps under a day |
| Sessions.SplitSessions | analytics_engine.py:340-358 | The grouping is a session split: non-empty groups that concatenate to the event list, with a break between groups iff the gap's seconds field exceeds 3600; no groups iff no events |
| Sessions.SplitStep | analytics_engine.py:344-354 | One more event extends the last group or starts a new one, keeping the split valid |
| Sessions.ContinuousAppend | analytics_engine.py:353 | An event after a short gap keeps a session continuous |
| Sessions.ContinuousPrefix | analytics_engine.py:344-354 | A prefix of a continuous session is continuous |
| Sessions.SplitUnique | analytics_engine.py:340-358 | There is only one session split of an event list, the one computed |
| Sessions.DropLastEvent | analytics_engine.py:344-354 | Without its last event a split is still a split of the shorter list |
| Sessions.FlattenLength | analytics_engine.py:340-358 | The concatenation is at least as long as the first group |
| Sessions.AnswersOf | analytics_engine.py:379-380 | At most one answer per event, and an answer is in the list exactly when some answer-submitted event of the run carries it |
| Sessions.AnswersOfAppend | analytics_engine.py:379-380 | The answers of two runs in sequence are the first run's answers followed by the second's, so event order is kept |
| Sessions.AnswersOfCount | analytics_engine.py:380-381 | One answer per answer-submitted event |
| Sessions.ProcessSession | analytics_engine.py:366-421 | A session summary: starts at the first event and ends at the last; counts only answer events; correct at most answered; accuracy in [0, 1], 0 without answers, else correct over answered; topic and Bloom fractions distinct, in [0, 1], correct over total per key |
| Sessions.SessionTopicKeys | analytics_engine.py:387-393 | The session's topics are exactly those of its answers, "General" where missing |
| Sessions.QuietSession | analytics_engine.py:369-377 | A session without answers reports no questions, accuracy 0 and no topics |
| Sessions.NoAnswers | analytics_engine.py:379-380 | Quiz-generation events contribute no answers |
| Sessions.Summaries | analytics_engine.py:350 | One summary per group, in order |
| Sessions.GetUserHistory | analytics_engine.py:331-364 | An unknown learner has no sessions; otherwise the last min(n, 10) session summaries, a suffix of all of them |
| Sessions.HistoryNonEmpty | analytics_engine.py:357-358 | A learner with events has at least one session |
| Sessions.HistoryWellFormed | analytics_engine.py:366-421 | Every summary in a history has correct within answered and all fractions in [0, 1] |
| UserAnalytics.ScoresFor | analytics_engine.py:442-445 | At most one score per pair, and a score is in a topic's list exactly when the pairs record it for that topic |
| UserAnalytics.ScoresForAppend | analytics_engine.py:442-445 | A topic's scores over two runs of pairs are its scores in the first followed by those in the second, so recording order is kept |
| UserAnalytics.MasteryTotals | analytics_engine.py:441-445 | The running (sum, count) per topic equals the sum and count of that topic's session scores |
| UserAnalytics.TotalsStep | analytics_engine.py:443-445 | Adding one score keeps every topic's total equal to the sum and count of its scores |
| UserAnalytics.Mastery | analytics_engine.py:447-450 | Topic mastery: exactly the topics seen, each the mean of its session scores |
| UserAnalytics.ScoresForWithin | analytics_engine.py:442-445 | A topic's scores stay in [0, 1] when all are |
| UserAnalytics.MasteryWithin01 | analytics_engine.py:447-450 | Mastery stays in [0, 1] |
| UserAnalytics.TopicScoresWithin | analytics_engine.py:443 | Session topic scores are all in [0, 1] |
| UserAnalytics.StudyTime | analytics_engine.py:462-466 | The total of the sessions' `.seconds` durations is below a day per session |
| UserAnalytics.Accuracies | analytics_engine.py:471 | The sessions' accuracies, in order |
| UserAnalytics.TotalsBound | analytics_engine.py:437-438 | The total correct never exceeds the total answered |
| UserAnalytics.LearningCurve | analytics_engine.py:453-459 | One (start, accuracy) point per session, in order |
| UserAnalytics.Aggregate | analytics_engine.py:436-497 | The analytics of a history: counts and totals across sessions; the improvement figure; overall accuracy 0 without questions, else correct over answered; mastery per topic as the mean of its scores; the learning curve; study time and its average per session; last activity; top and bottom 3 topics by mastery |
| UserAnalytics.Improvement | analytics_engine.py:467-473 | 0 with fewer than two sessions; otherwise the improvement plus the first accuracy, times the number of recent sessions (at most 3), is the sum of the last three accuracies |
| UserAnalytics.AggregateBounds | analytics_engine.py:468-481 | Overall accuracy and mastery are in [0, 1] and the improvement in [-1, 1] |
| UserAnalytics.FlatImprovement | analytics_engine.py:468-474 | Unchanging accuracy shows no improvement |
| UserAnalytics.GetUserAnalytics | analytics_engine.py:423-497 | No analytics exactly when the learner has no events; otherwise the aggregate of the recent history, over at most 10 sessions |
| Profile.LevelOf | adaptive_engine.py:147-160 | Advanced iff accuracy >= 0.95, Struggling iff accuracy < 0.6, with Proficient and Developing between |
| Profile.LevelMonotone | adaptive_engine.py:153-160 | Higher accuracy never gives a lower level |
| Profile.PerformanceLevel | adaptive_engine.py:147-160 | Developing with no questions answered, otherwise the level of correct over answered |
| Profile.Blend | adaptive_engine.py:116-136 | The moving-average merge of observations into a map: keys are the union, keys not observed keep their value, distinct keys preserved |
| Profile.BlendValue | adaptive_engine.py:119-125 | An observed key takes the blend of its old value with the observation, or the observation if new |
| Profile.BlendValues | adaptive_engine.py:119-125 | When each key is observed once, every observed key takes the blend of its old value with the observation, or the observation if new |
| Profile.Convex01 | adaptive_engine.py:123 | A convex mix of values in [0, 1] stays in [0, 1] |
| Profile.BlendWithin01 | adaptive_engine.py:116-136 | Blending values in [0, 1] with convex weights keeps all values in [0, 1] |
| Profile.BlendOneWithin01 | adaptive_engine.py:119-125 | One blended key keeps the map in [0, 1] |
| Profile.MixWithin01 | adaptive_engine.py:120-125 | Mixing values in [0, 1] stays in [0, 1] |
| Profile.Above | adaptive_engine.py:300 | The entries above a bar: a sub-list holding exactly those entries |
| Profile.Below | adaptive_engine.py:303 | The entries below a bar: a sub-list holding exactly those entries |
| Profile.IdentifyStrengthsWeaknesses | adaptive_engine.py:290-303 | The update changes only the strengths and weaknesses, keeps at most 3 of each, and leaves a profile with no topics unchanged |
| Profile.PairOfKey | adaptive_engine.py:296-303 | A picked key carries its mastery from the map |
| Profile.PickedAboveRest | adaptive_engine.py:296-300 | A strength has mastery at least that of every topic not picked |
| Profile.PickedBelowRest | adaptive_engine.py:296-303 | A weakness has mastery at most that of every topic not picked |
| Profile.StrengthFacts | adaptive_engine.py:296-300 | Strengths are above 0.7 and outrank every other topic |
| Profile.WeaknessFacts | adaptive_engine.py:296-303 | Weaknesses are below 0.6 and rank below every other topic |
| Profile.StrengthsWeaknesses | adaptive_engine.py:290-303 | Strengths and weaknesses are disjoint, above 0.7 and below 0.6 respectively, and outrank and trail every other topic; a topic above 0.7 (below 0.6) is missing from the strengths (weaknesses) only when that list already holds 3 topics |
| Profile.StrengthLeftOut | adaptive_engine.py:296-300 | A topic above 0.7 that is not a strength was crowded out of the top 3, so there are exactly 3 strengths |
| Profile.WeaknessLeftOut | adaptive_engine.py:296-303 | A topic below 0.6 that is not a weakness was crowded out of the bottom 3, so there are exactly 3 weaknesses |
| Profile.StrengthsWeaknessesComplete | adaptive_engine.py:296-303 | Every topic above 0.7 is a strength and every topic below 0.6 a weakness, unless that list is already full at 3 |
| Profile.LearningVelocity | adaptive_engine.py:305-326 | Velocity is 0 with fewer than 2 sessions |
| Profile.SteadyVelocity | adaptive_engine.py:305-326 | Constant accuracy has velocity 0 |
| Profile.LinearVelocity | adaptive_engine.py:305-326 | Accuracies rising by b per session have velocity exactly b |
| Profile.ApplySessionsCounts | adaptive_engine.py:114-136 | Applying sessions grows the counters by exactly the sessions' answered and correct totals |
| Profile.ApplySession | adaptive_engine.py:114-134 | One session adds its answered and correct counts; each topic and Bloom level it reports takes the reported score if new and 0.7 * old + 0.3 * new otherwise; every other entry and every other field is kept |
| Profile.ApplySessionsAppend | adaptive_engine.py:113-134 | Folding in two runs of sessions equals folding in the first run, then the second |
| Profile.ApplySessionsDistinct | adaptive_engine.py:118-125 | Folding sessions in keeps each topic at most once in the mastery map |
| Profile.UpdateProfileFromHistory | adaptive_engine.py:110-145 | Counters grow by exactly the history's totals; mastery and Bloom maps are the sessions folded in one by one; velocity recomputed once any question has been answered; strengths and weaknesses left alone only when no topic is known; id, average time and preferred types kept; session time stamped |
| Profile.UpdateFromHistoryRanks | adaptive_engine.py:141-142 | After an update from history with a topic known, the strengths and weaknesses rank the folded mastery map as Profile.StrengthsWeaknesses describes |
| Profile.BlendTime | adaptive_engine.py:357-363 | The first time is taken as is; later times are blended to a value between the old and the new |
| Profile.ConvexBetween | adaptive_engine.py:360-363 | A convex mix lies between its two inputs |
| Profile.ApplyReport | adaptive_engine.py:328-370 | A report grows the counters by its totals, blends mastery and Bloom scores 0.6/0.4, blends the average time when given, and stamps the session time |
| Profile.ApplyReportRanks | adaptive_engine.py:366-367 | After a report with a topic known, the strengths and weaknesses rank the blended mastery map as Profile.StrengthsWeaknesses describes |
| Profile.NewProfileValid | adaptive_engine.py:25-50 | A fresh profile is valid |
| Profile.ApplySessionsValid | adaptive_engine.py:114-136 | Applying well-formed sessions keeps a profile valid: correct within answered, mastery and Bloom maps distinct with values in [0, 1], at most 3 strengths and weaknesses |
| Profile.IdentifyValid | adaptive_engine.py:290-303 | Deriving strengths and weaknesses keeps a profile valid |
| Profile.UpdateFromHistoryValid | adaptive_engine.py:110-145 | Updating from a well-formed history keeps a profile valid |
| Profile.ApplyReportValid | adaptive_engine.py:328-370 | Applying any generated report keeps a profile valid |
| Profile.GetOrCreate | adaptive_engine.py:74-78 | An existing profile is returned unchanged; a new learner gets a fresh profile; nobody else is touched |
| Profile.UpdateUserModel | adaptive_engine.py:328-370 | Only that learner's profile changes, to the report applied to their existing or fresh profile |
| Profile.Export | adaptive_engine.py:479-496 | The exported accuracy is correct over max(1, answered) and the exported level is the profile's level |
| Profile.Import | adaptive_engine.py:498-516 | Import fails exactly when the user id is missing |
| Profile.ExportImport | adaptive_engine.py:479-516 | Export then import gives back the profile, except that average time and preferred types are reset |
| Profile.ImportDefaults | adaptive_engine.py:502-511 | Missing fields import as zeros and empty collections |
| Profile.ExportProfile | adaptive_engine.py:479-496 | The export of the learner's existing or fresh profile, which imports back to it |
| Profile.ImportProfile | adaptive_engine.py:498-516 | Only that learner's profile is replaced, by the imported one |
| Difficulty.BaseDistribution | adaptive_engine.py:167-194 | Each level's base table is a mix: distinct positive weights summing to 1, starting remember, understand, ..., analyze |
| Difficulty.BaseShiftsUpward | adaptive_engine.py:167-194 | A higher level never asks more remembering nor less analysis |
| Difficulty.BoostWeak | adaptive_engine.py:197-203 | Boosting keeps keys and positivity |
| Difficulty.BoostGet | adaptive_engine.py:199-203 | Each level's weight is scaled by 1.2 exactly when its Bloom performance is below 0.5 |
| Difficulty.BoostIndex | adaptive_engine.py:199-203 | The same, position by position |
| Difficulty.BoostNone | adaptive_engine.py:199-203 | With no weak level nothing is boosted |
| Difficulty.AdjustMix | adaptive_engine.py:197-209 | Boost then renormalise: the base's keys, positive weights summing to 1 |
| Difficulty.AdjustDistribution | adaptive_engine.py:162-211 | The result has exactly the level's base keys, whatever was configured before, and is a mix |
| Difficulty.MixShares | adaptive_engine.py:206-209 | After renormalising, each weight is its boosted weight over the boosted total |
| Difficulty.NoWeakLevelKeepsMix | adaptive_engine.py:197-209 | Without weak levels the base table is returned unchanged |
| Difficulty.BoostedTotalBelow | adaptive_engine.py:199-209 | While some level is not weak, the boosted total stays below 1.2 |
| Difficulty.ShareAt | adaptive_engine.py:206-209 | The share of a key is its weight |
| Difficulty.WeakLevelGains | adaptive_engine.py:197-209 | A weak level ends with a larger share than in the base table whenever some level is not weak |
| Configurator.PyIndex | adaptive_engine.py:236 | Python list indexing, negative indices included: defined exactly in -len..len-1 |
| Configurator.ReviewInterval | adaptive_engine.py:234-236 | The spaced-repetition interval for a mastery is one of 1, 3, 7, 14, 30, 90 days |
| Configurator.ReviewIntervalFails | adaptive_engine.py:234-236 | The lookup raises exactly when 6*mastery <= -7 |
| Configurator.ReviewIntervalGrows | adaptive_engine.py:234-236 | For mastery in [0, 1] the interval is defined and grows with mastery, from 1 to 90 days |
| Configurator.ReviewIntervalEnds | adaptive_engine.py:64 | Mastery 0 reviews after 1 day, mastery 1 after 90 |
| Configurator.WeakCandidates | adaptive_engine.py:220-226 | Weak candidates have priority above 0.4 and are topics of the profile |
| Configurator.WeakCandidatesExact | adaptive_engine.py:220-226 | The weak candidates are exactly the topics with mastery below 0.6, each with priority 1 - mastery |
| Configurator.DueCandidates | adaptive_engine.py:229-243 | Due topics have priority 0.5 and are topics of the profile |
| Configurator.DueCandidatesDefined | adaptive_engine.py:229-243 | With mastery in [0, 1] the review lookup never raises |
| Configurator.DueSnoc | adaptive_engine.py:232-243 | A last topic whose review interval has passed joins the due candidates of the others |
| Configurator.NothingDueSameDay | adaptive_engine.py:231-238 | Less than a day after the last session nothing is due |
| Configurator.EverythingDueAfterLongBreak | adaptive_engine.py:231-243 | After 90 days every topic is due |
| Configurator.DueCandidatesExact | adaptive_engine.py:229-243 | When the interval lookup succeeds, a topic is a due candidate exactly when its review interval has passed |
| Configurator.DueUnfold | adaptive_engine.py:232-243 | A successful lookup over the topics is one over all but the last, plus the last topic when its interval has passed |
| Configurator.DueStepKey | adaptive_engine.py:232-243 | Adding a topic keeps "due candidate exactly when the interval has passed" true for every key |
| Configurator.DueStepOtherKey | adaptive_engine.py:232-243 | A topic other than the added one is due after adding exactly when it was due before |
| Configurator.DueStepLastKey | adaptive_engine.py:232-243 | The added topic is due exactly when its own interval has passed |
| Configurator.CandidatesExact | adaptive_engine.py:218-243 | After a session a topic is a candidate exactly when its mastery is below 0.6 or its review interval has passed |
| Configurator.Candidates | adaptive_engine.py:218-243 | A learner with no previous session gets only the weak candidates; after a session the lookup fails exactly when the due lookup at the whole days since then fails, and otherwise yields the weak candidates followed by the due ones |
| Configurator.SelectAdaptiveTopics | adaptive_engine.py:213-249 | Only the focus topics change; at most 5; each a topic of the profile; fails only where the review lookup raises |
| Configurator.FocusIsTopPriority | adaptive_engine.py:246-247 | The focus topics are the keys of the top 5 candidates by priority, in non-increasing priority |
| Configurator.FirstSessionFocusesOnWeakness | adaptive_engine.py:213-249 | For a learner with no previous session every focus topic has mastery below 0.6 |
| Configurator.AdjustQuestionCount | adaptive_engine.py:251-272 | Only the question count changes. From the configured count (default 10): velocity above 0.1 gives min(20, base + 3) and below -0.1 gives max(5, base - 3); otherwise over 120 s per question gives max(5, base - 2), under 30 s gives min(20, base + 2), and no timing or a pace in between leaves the count as configured |
| Configurator.QuestionCountBounds | adaptive_engine.py:255-270 | A changed count lies between min(5, base) and max(20, base); for a base in [5, 20] it stays in [5, 20] and within 3 of the base |
| Configurator.PaceDirection | adaptive_engine.py:257-264 | With velocity within +-0.1: over 120 s per question the count falls to at most max(base, 5); under 30 s it rises to at least min(base, 20); with no timing or a pace in between it is left as configured |
| Configurator.VelocityOverridesPace | adaptive_engine.py:255-270 | With velocity beyond +-0.1 the pace has no effect at all; rising velocity gives at least min(base, 20) and falling velocity at most max(base, 5) |
| Configurator.WeightTypes | adaptive_engine.py:280-286 | Each preferred type appears twice as often as in the input, every other type as often, and no new type appears |
| Configurator.SelectQuestionTypes | adaptive_engine.py:274-288 | Only the types change, and not at all without preferences; with preferences the list holds exactly the configured or default types |
| Configurator.AdjustConfig | adaptive_engine.py:80-108 | Only the learner's profile changes, to their existing or fresh profile updated from the history; a returned configuration carries the difficulty mix of the updated profile's level and Bloom scores, which is a mix, and at most 5 focus topics |
| Configurator.Refresh | adaptive_engine.py:85-89 | Stores the learner's existing or fresh profile updated from the history, leaving every other learner's profile alone |
| Configurator.ConfigFor | adaptive_engine.py:91-104 | A returned configuration carries the difficulty mix for the profile's level and Bloom scores, which is a mix, and at most 5 focus topics |
| Configurator.AdjustConfigFocus | adaptive_engine.py:80-108 | From valid profiles and a well-formed history, configuration always succeeds, keeps the profile valid, and focuses on the top 5 weak candidates only: the session time is stamped before topic selection, so nothing is due for review |
| Configurator.ConfigForFocus | adaptive_engine.py:91-104 | A valid profile whose last session is now is configured, with the top 5 weak candidates as focus |
| Planner.BandOf | adaptive_engine.py:378-395 | Performance bands: low below 0.4, high from 0.7 |
| Planner.PracticeIntervals | adaptive_engine.py:453-465 | Four strictly increasing day offsets between 1 and 60 |
| Planner.PracticeIntervalsGrow | adaptive_engine.py:455-460 | More mastery never means earlier reviews |
| Planner.ReviewDates | adaptive_engine.py:462-465 | Four strictly increasing future days, at most 60 days ahead |
| Planner.PracticeSchedule | adaptive_engine.py:447-467 | One entry per topic, in order, each the review days for that topic's mastery |
| Planner.ScheduleLookup | adaptive_engine.py:447-467 | The schedule keeps distinct topics, and looking a topic up gives the review days of its mastery |
| Planner.ScheduleOrder | adaptive_engine.py:453-465 | For two topics where the first has mastery at most the second's, each of the first topic's four review dates is after today and no later than the second topic's date at the same position |
| Planner.Recommendations | adaptive_engine.py:372-397 | Three recommendations, the first naming the topic |
| Planner.Advice | adaptive_engine.py:378-395 | Each band gives three suggestions, the first naming the topic and the last the band's fixed closing suggestion |
| Planner.AdviceDiffers | adaptive_engine.py:378-395 | Two bands give the same suggestions only when they are the same band |
| Planner.IntervalsDiffer | adaptive_engine.py:453-465 | Two masteries get the same review offsets exactly when they fall in the same band |
| Planner.RecommendationsFollowBand | adaptive_engine.py:372-397 | Two performances get the same advice exactly when they fall in the same band, which is also when they get the same practice intervals |
| Planner.TopicResources | adaptive_engine.py:469-477 | Three resources, each naming the topic |
| Planner.FocusOn | adaptive_engine.py:414-420 | A focus entry names its topic, targets 0.7 and carries the topic's mastery, or 0 for a topic with none |
| Planner.FocusItems | adaptive_engine.py:413-420 | One focus entry for each of the first 3 weaknesses, in order |
| Planner.ShortTermGoals | adaptive_engine.py:423-427 | Three short-term goals, the first naming the given topics |
| Planner.VideoLinks | adaptive_engine.py:440-443 | One video link per weakness, in order, each for that weakness |
| Planner.PlanFor | adaptive_engine.py:404-445 | Focus on the first 3 weaknesses with their mastery and target 0.7; one video per weakness; the first short-term goal names the first 2 weaknesses; the schedule covers every topic |
| Planner.GenerateStudyPlan | adaptive_engine.py:399-445 | Creates the profile if needed and plans from it, otherwise leaving the profiles alone |
| Planner.NewLearnerPlanIsEmpty | adaptive_engine.py:399-445 | A new learner's plan has no focus, no resources and no schedule |
| Planner.FocusBelowTarget | adaptive_engine.py:412-420 | After deriving weaknesses, every focus topic is a known topic below 0.6, hence below its 0.7 target, and trails every topic that is not a weakness |
| Planner.FocusOfWeaknesses | adaptive_engine.py:413-420 | Focus entries built from known topics below 0.6 that trail every other topic, in any order, name known topics whose mastery is below 0.6, short of the 0.7 target, and no higher than any topic left out |
| Text.MentionsAt | quiz_generator.py:604 | A string contains every string placed inside it |
| Text.MentionsAtEnd | quiz_generator.py:604 | A string contains any string it ends with |
| Text.MentionsAtStart | quiz_generator.py:604 | A string contains any string it starts with |
| Text.ContainsMentions | quiz_generator.py:604 | The substring test agrees with the existence of an occurrence |
| Text.ContainsEmpty | quiz_generator.py:604 | Every string contains the empty string |
| Text.Lower | quiz_generator.py:590 | `lower()` maps each character, keeping the length |
| Text.LowerIdempotent | quiz_generator.py:590-591 | Lower-casing twice is lower-casing once |
| Text.TrimStart | quiz_generator.py:590 | Removes exactly the leading whitespace |
| Text.TrimEnd | quiz_generator.py:590 | Removes exactly the trailing whitespace |
| Text.Strip | quiz_generator.py:590 | `strip()`: a substring framed only by whitespace, itself starting and ending in non-whitespace |
| Text.StripFixed | quiz_generator.py:590 | A string with no surrounding whitespace strips to itself |
| Text.LowerTrimStart | quiz_generator.py:590 | Lower-casing and trimming the start commute |
| Text.LowerTrimEnd | quiz_generator.py:590 | Lower-casing and trimming the end commute |
| Text.Normalize | quiz_generator.py:590-591 | The lower-cased, stripped form never grows |
| Text.NormalizeIdempotent | quiz_generator.py:590-591 | Normalising twice is normalising once |
| Text.NatToString | quiz_generator.py:571 | The decimal digits of a number |
| Text.ParseNatToString | quiz_generator.py:571 | Reading the digits back gives the number |
| Text.NatToStringInjective | quiz_generator.py:571 | Different numbers have different digits |
| Text.OccursShift | document_processor.py:275 | An occurrence one position on in the tail is one in the whole |
| Text.Find | document_processor.py:275 | The first occurrence of a separator, if any |
| Text.BeforeFirst | document_processor.py:275 | Text before the first occurrence does not contain the separator |
| Text.Split | document_processor.py:275 | `str.split(sep)`: at least one piece, pieces joined by sep give back the text, and no piece contains sep |
| Text.WordCount | document_processor.py:365 | `len(text.split())` is at most the number of characters |
| Text.WordCountSpaced | document_processor.py:365 | Joining with a space adds the word counts |
| QuizGen.TimesIsProduct | quiz_generator.py:236 | Repeated addition is multiplication by the count |
| QuizGen.TimesAtMost | quiz_generator.py:236 | A share of at most 1 gives at most n |
| QuizGen.Floors | quiz_generator.py:235-238 | `{level: int(n * ratio)}`: the same levels in order, each the truncated share |
| QuizGen.Settle | quiz_generator.py:240-243 | Surplus to "understand": counts already reaching n are unchanged; otherwise "understand" gains exactly the shortfall and no other level changes; fails exactly when a shortfall meets a missing "understand" |
| QuizGen.BloomCounts | quiz_generator.py:226-243 | The counts for the configured or default mix: the mix's levels; fail exactly on a shortfall without "understand" |
| QuizGen.TopUp | quiz_generator.py:241-243 | Adding the shortfall to "understand" makes the counts total n and keeps them non-negative |
| QuizGen.FloorsNonNegative | quiz_generator.py:235-238 | Truncated shares of a non-negative count are non-negative |
| QuizGen.FloorsBelow | quiz_generator.py:235-238 | Truncated shares total at most the exact shares |
| QuizGen.SettleExact | quiz_generator.py:240-243 | With "understand" present and no surplus, the settled counts total exactly n and are non-negative |
| QuizGen.BloomCountsExact | quiz_generator.py:226-243 | Non-negative ratios summing to at most 1 with "understand" present give non-negative counts totalling exactly the question count |
| QuizGen.DefaultMixIsMix | quiz_generator.py:227-232 | The default mix is distinct, non-negative, includes "understand" and sums to 1 |
| QuizGen.AdaptedCountsExact | quiz_generator.py:226-243 | The adaptive engine's distributions always give counts totalling the question count |
| QuizGen.SimpleValidation | quiz_generator.py:588-619 | Score 1 iff the normalised answers are equal, which is also exactly when the answer is correct; 0.5 iff they differ but one contains the other; else 0 |
| QuizGen.ValidationSymmetric | quiz_generator.py:594-604 | The score does not depend on which argument is the user's |
| QuizGen.BlankAnswerHalfCredit | quiz_generator.py:594-604 | A blank answer against a non-blank one scores 0.5 and is not correct |
| QuizGen.ValidationIgnoresCaseAndSpacing | quiz_generator.py:590-591 | Grading is unchanged by case and surrounding whitespace in the answer |
| QuizGen.FallbackQuestionAsWritten | quiz_generator.py:570-579 | The fallback question as generated: options "Option A".."Option D", answer "A" |
| QuizGen.FallbackQuestion | quiz_generator.py:570-579 | A multiple-choice question with id q<i>, 4 options and answer "A" |
| QuizGen.FallbackQuiz | quiz_generator.py:566-586 | The requested number of questions (default 5, none when non-positive), the i-th being the as-generated fallback question i + 1 with options "Option A".."Option D", with fallback metadata |
| QuizGen.FallbackQuizCorrected | quiz_generator.py:566-586 | The corrected fallback quiz: the same count and metadata, the i-th question being the labelled fallback question i + 1 |
| QuizGen.FallbackIdsDistinct | quiz_generator.py:571 | Fallback question ids are pairwise distinct |
| QuizGen.FirstIndex | quiz_generator.py:556 | `find`: the first position of the character, `None` iff absent |
| QuizGen.LastIndex | quiz_generator.py:557 | `rfind`: the last position of the character, `None` iff absent |
| QuizGen.BraceSlice | quiz_generator.py:555-558 | No slice iff a brace kind is missing; otherwise the slice is framed by the first '{' and the last '}' |
| QuizGen.ParseQuizResponse | quiz_generator.py:551-564 | The decoded quiz when the brace slice is non-empty and decodes; the 5-question fallback quiz when a brace is missing, the slice is empty, or decoding fails |
| QuizGen.ReversedBracesFallBack | quiz_generator.py:553-564 | When the last '}' comes before the first '{', the reply yields the fallback quiz whatever the decoder does |
| QuizGen.NoBraceFallsBack | quiz_generator.py:555-564 | A response without '{' gives the 5-question fallback quiz |
| QuizGen.AvgResponseTime | quiz_generator.py:649-654 | 0 with no samples, otherwise a value whose product with the sample count is the total |
| QuizGen.AvgResponseTimeBetween | quiz_generator.py:649-654 | The average lies between the fastest and the slowest bound |
| Canvas.ClampScore | canvas_integration.py:168 | The clamped score is in [0, 1], equal to the score or the nearer end |
| Canvas.ClampScoreIdentity | canvas_integration.py:168 | The clamp is the identity exactly on [0, 1] |
| Canvas.ClampScoreMonotone | canvas_integration.py:168 | A better score is never clamped to a worse one |
| Canvas.ChoiceAnswers | canvas_integration.py:255-267 | One answer per option in order, weight 100 iff the option starts with the correct answer and 0 otherwise; fails exactly on options without a correct answer |
| Canvas.TrueFalseAnswers | canvas_integration.py:269-275 | "True" then "False", exactly one weighted 100, "True" iff the answer lower-cases to "true" |
| Canvas.FormatQuestion | canvas_integration.py:241-292 | Name = id, text, 1 point, the explanation as comment; no answers key exactly for essays; one answer of weight 100 for short-answer and unknown types; fails exactly for a multiple-choice question with options but no correct answer |
| Canvas.TrueFalseHasOneRightAnswer | canvas_integration.py:269-275 | A true/false question always converts with exactly one right answer |
| Canvas.ChoiceWeights | canvas_integration.py:255-267 | A multiple-choice option is marked right exactly when it starts with the stored answer |
| Canvas.FormatAll | canvas_integration.py:235 | All questions convert in order, or the conversion fails exactly when one of them does |
| Canvas.FormatQuiz | canvas_integration.py:216-239 | Title default "AI Generated Quiz", empty description default, time limit from the estimated time defaulting to 30, unlimited attempts, and the questions converted one for one |
| Canvas.FallbackAsWrittenUnmarked | canvas_integration.py:255-267 | The fallback question as generated converts with no option marked right |
| Canvas.FallbackMarked | canvas_integration.py:255-267 | With labelled options the fallback question has exactly one right answer, the first |
| Canvas.FallbackQuizConverts | canvas_integration.py:216-264 | The generated fallback quiz converts with one question per fallback question and time limit 30, and no option of any question gets weight 100 |
| Canvas.CorrectedFallbackQuizConverts | canvas_integration.py:216-264 | The corrected fallback quiz converts with one question per fallback question and time limit 30, exactly the first option of each marked right |
| Documents.TotalLenAppend | document_processor.py:283-299 | Lengths add over concatenation |
| Documents.TakeTail | document_processor.py:288-299 | The overlap: the longest suffix of the chunk's sentences fitting the overlap budget, taking nothing when the last sentence alone exceeds it |
| Documents.CloseChunk | document_processor.py:283-285 | Closing a chunk that follows the rule keeps the chunk list well-formed |
| Documents.StartNext | document_processor.py:283-300 | A sentence that does not fit closes the open chunk and opens the next with the overlap and that sentence |
| Documents.ExtendWithin | document_processor.py:301-303 | A sentence that fits keeps the running size equal to the chunk's length |
| Documents.Extend | document_processor.py:301-303 | A sentence that fits keeps the loop state valid |
| Documents.StepOpen | document_processor.py:280-303 | One turn of the loop, closing and restarting or extending, keeps the loop state valid one sentence further on: the running size is the open chunk's length and the chunking rule holds |
| Documents.Finish | document_processor.py:306-307 | Closing the last open chunk keeps the chunking rule and covers exactly the sentences |
| Documents.CarriedIsTail | document_processor.py:288-299 | Every later chunk starts with a suffix of the previous chunk, of total length within the overlap unless empty |
| Documents.ChunkSentences | document_processor.py:280-307 | No chunks iff no sentences; each sentence added exactly once, in order; every chunk adds one, the first carries nothing, each later one begins with the overlap tail and is opened only by a sentence that would overflow the previous one, and a chunk takes further sentences only while within size |
| Documents.ChunkText | document_processor.py:268-310 | At least one chunk; each chunk is its sentences joined by ". " plus "." and ends in '.'; the added sentences are exactly the text split on ". ", none of them contains ". ", and joined by ". " they give back the text; the chunking rule holds |
| Documents.EstimateReadingTime | document_processor.py:363-366 | `max(1, words // wpm)`: at least 1, undefined exactly for wpm 0, and the whole minutes the words take when above 1 |
| Documents.ReadingTimeMonotone | document_processor.py:363-366 | More words never read faster |
| Documents.ReadingTimeOfJoined | document_processor.py:363-366 | Appending text never shortens the estimate |

## Left out

- LLM, LangChain, tiktoken and spaCy calls, and the prompt templates: remote or opaque libraries. Only the brace slice of `_parse_quiz_response` is modelled, and `json.loads` is a function parameter.
- File extraction, `_clean_text`, PII removal, hashing and `extract_key_sentences`: file I/O and regular-expression semantics.
- Canvas OAuth signing, HTTP requests, XML parsing, and the QTI and Common Cartridge templates: I/O and string templates.
- `app.py` and `demo.py`: web routing, caching and console output.
- `_generate_insights` and the report's `percentage`, `time_per_correct`, `quiz_id` and stored copy of the answers: free text and derived display values.
- Recommendation, goal and resource strings are modelled only as far as which branch is taken and the topic they name. The URL strings are left out.
- Wall-clock reads: `now` and `today` are parameters. ISO-8601 parsing and formatting, and `strftime` dates, are left out. Times are whole seconds and schedule dates are day numbers.
- `generate_study_plan`'s `performance` argument, which the source never reads.
- `preferred_question_types`: nothing in the source ever sets it. `Configurator.SelectQuestionTypes` models its effect for any value.
- Sorting.Sort: states an ordered permutation, not stability. Python's sort keeps ties in insertion order; the definition does too, but no contract says so.
- Sorting.Top: allows any choice among entries tied at the cut-off score, where Python takes the earliest inserted, because stability is not stated.
- Sorting.Bottom: allows any choice among entries tied at the cut-off score, where Python takes the latest inserted, because stability is not stated.
- UserAnalytics.Aggregate: the top and bottom 3 topics come from `Sorting.Top` and `Sorting.Bottom`, so among topics tied at the cut-off the contract does not say which are listed.
- Configurator.FocusIsTopPriority: among candidates tied at the fifth priority, the contract does not say which are kept.
- Profile.StrengthsWeaknesses: among topics tied at the cut-off mastery, the contract does not say which become strengths or weaknesses.
- Profile.IdentifyStrengthsWeaknesses: its own contract states only what changes and the bound of 3. Which topics are chosen is stated by `Profile.StrengthsWeaknesses`, kept apart for proof cost.
- QuizGen.Floors: states each count through `Times(n, ratio)`, repeated addition of the ratio, with `QuizGen.TimesIsProduct` proving this equals `n * ratio`; it does not state the product inside the `ensures` itself, for proof cost.
- Canvas.FormatQuestion: a key that is absent and a key holding `None` are the same `Option` value. The question's `type` key is read as given.
- Text.Split: modelled only for a non-empty separator. The source always uses ". ".
- Text.Lower: maps ASCII letters only, with no Unicode case mapping.
- IEEE-754 rounding: arithmetic is exact over the reals. `np.polyfit` is the closed-form slope.
- Logging, the `topic_difficulty` and `question_bank` fields that nothing reads, `export_data` and `import_data`, token-cost tracking, and `check_connection`: they carry no behaviour into the modelled operations.

## Findings

| source | as written | input that shows it | evidently intended | confidence | as-written member | corrected member |
|---|---|---|---|---|---|---|
| quiz_generator.py:575-576 with canvas_integration.py:260-264 | The fallback question's options are "Option A" to "Option D" and its answer is "A". Canvas marks an option right only if it starts with the answer. | Any fallback quiz sent to Canvas, e.g. the one `_parse_quiz_response` returns for a reply without '{'. No option gets weight 100, so every answer is graded wrong. | Labelled options "A) ..." as in the generation prompt (quiz_generator.py:340-341), so exactly the first option is right. | not executed | QuizGen.FallbackQuestionAsWritten, QuizGen.FallbackQuiz, Canvas.FallbackAsWrittenUnmarked, Canvas.FallbackQuizConverts | QuizGen.FallbackQuestion, QuizGen.FallbackQuizCorrected, Canvas.FallbackMarked, Canvas.CorrectedFallbackQuizConverts |
