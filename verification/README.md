# foot-predictor prediction core in Dafny

This project models the prediction engine of foot-predictor. The engine is a service that predicts football fixtures. Its core is modelled in five layers.

**Records.**
- Stored match records of a team are aggregated per side: home matches and away matches.
- Fixtures from the match-data provider are aggregated by the winner string.
- A stored record is built from a fixture row and the live-score statistics.
- The statistics list of the statistics provider is flattened to a key/value map.

**Derived metrics.** `TeamStatistics` derives a chain of ratio metrics and an xG estimate. `GlobalStatistics` holds a team's totals over both sides.

**Advantage.** Each team's xG is adjusted by a win-rate advantage.

**Monte Carlo simulation.** The simulation counts, per iteration:
- home wins, draws and away wins;
- both teams scoring;
- below/over tallies at 0.5, 1.5, 2.5 and 3.5 goals, for the match total and for each side;
- exact scores.

It reports every count as a rounded percentage, and the three most common exact scores.

**Competitions.** A team's competitions are filtered into leagues and cups, with membership tests by id.

## Modelling choices

- **Types.**
  - All data is immutable datatypes.
  - Aggregates are folds over sequences.
  - Ratios are exact `real` arithmetic.
  - A Python float that may be NaN is `Floats.Float`, which is `Finite(v)` or `NaN`.
- **Randomness.** The Poisson draws are an input sequence of raw pairs, `Simulation.Sample`. Each is clamped to `MaxGoals` exactly as the program does.
- **Thresholds.** A half-goal threshold `k + 0.5` is the natural number `k`.
- **Percentages.** `round(count / iterations * 100)` is half-to-even rounding of the exact rational, `Floats.RoundHalfEven`.
- **Errors.**
  - Python's `ZeroDivisionError` is `Err(DivisionByZero)` of `Base.Result`.
  - The `assert` on common competitions is `Err(NoCommonCompetition)`.
  - The validation error of a report whose exact scores are not `ExactScore` values is `Err(InvalidExactScore)`.
  - No other error kinds are modelled.
- **Uninterpreted maths.** `math.exp2` and `math.log` are function-typed parameters `exp2` and `ln`. Nothing is assumed about them.
- **Exact scores.** `Counter.most_common` ranks by count, with ties in first-insertion order. `Ranking.MostCommon` is defined by repeated selection of the best remaining candidate, and is proved to be that ranking.

## Model

| member | source | states |
|---|---|---|
| Floats.RoundHalfEven | app/predictor/predictor.py:153-156 | `round` gives an integer within one half of the exact value, and on a tie the even one of the two neighbours |
| Floats.Round2 | app/predictor/models.py:90 | `round(x, 2)` gives a whole number of hundredths within 0.005 of `x` |
| Floats.RoundHalfEvenMonotone | app/predictor/predictor.py:152-156 | rounding never reverses the order of two values |
| Teams.OfKind | app/models/teams.py:58-68 | the filter keeps exactly the competitions of the requested type: every kept one has that type and comes from the list, and every one of that type is kept |
| Teams.OfKindAppend | app/models/teams.py:58-68 | filtering distributes over concatenation, so the relative order of the competitions is kept |
| Teams.LeaguesAndCupsPartition | app/models/teams.py:58-68 | leagues and cups together hold every competition exactly once (multiset equality) |
| Teams.AnyWithId | app/models/teams.py:70-74 | `any(c.id == id ...)` holds iff some element has that id |
| Teams.IsInLeagueMeans | app/models/teams.py:70-71 | `is_in_league` holds iff some competition of the team is a league with the same id, whatever the type of the competition asked about |
| Teams.IsInCupMeans | app/models/teams.py:73-74 | `is_in_cup` holds iff some competition of the team is a cup with the same id |
| Teams.HashInt | app/models/teams.py:55-56 | CPython's integer hash is never -1, stays below 2^61 - 1 in magnitude, and is the identity on small non-negative ids |
| Teams.TeamHash | app/models/teams.py:55-56 | `hash(self.id)` depends on the id alone, so it agrees with `__eq__`; a missing id gets the hash of `None`, a set one is never -1 and stays below 2^61 - 1 in magnitude, and a small non-negative id is its own hash |
| Teams.SharedIdsEmpty | app/predictor/predictor.py:26-28 | the intersection of the two competition sets is empty iff no pair of competitions shares an id |
| Teams.CommonCompetitionIds | app/predictor/predictor.py:26-30 | fails with NoCommonCompetition iff the teams share no competition id; otherwise it is exactly the set of ids present in both teams' lists |
| Statistics.GoalPerMatch | app/predictor/models.py:22-25 | defined when matches_played > 0; the result times matches_played is goals_for |
| Statistics.ShotPerMatch | app/predictor/models.py:27-30 | defined when matches_played > 0; the result times matches_played is shots |
| Statistics.ShotsOnGoalPerMatch | app/predictor/models.py:32-35 | defined when matches_played > 0; the result times matches_played is shots_on_goal |
| Statistics.ShotsOnGoalForGoal | app/predictor/models.py:37-40 | defined when goals_for > 0; the result times goals_for is shots_on_goal |
| Statistics.ShotAccuracy | app/predictor/models.py:42-45 | defined when shots > 0; the result times shots is shots_on_goal, and it is at most 1 when shots_on_goal <= shots |
| Statistics.ShotQuality | app/predictor/models.py:47-50 | defined when shots_on_goal > 0; the result times shots_on_goal is goals_for |
| Statistics.ShotMetricsReciprocal | app/predictor/models.py:37-50 | shots_on_goal_for_goal and shot_quality multiply to 1 |
| Statistics.AttackEfficiencyRatio | app/predictor/models.py:52-55 | the ratio is goals_for squared over 100 * matches_played, and non-negative |
| Statistics.ProbabilityOfGoalPerShot | app/predictor/models.py:57-63 | defined when matches, goals, shots and shots on goal are all positive; it is positive and equals shots^2 * goals^2 / (100 * matches * onTarget^3) |
| Statistics.ProbabilityClosedForm | app/predictor/models.py:57-63 | both factors of the quotient are positive and the quotient collapses to that closed form |
| Statistics.Xg | app/predictor/models.py:65-90 | fails with a division by zero iff the ratio chain has a zero denominator; NaN iff the possession mean or a set external xG is NaN; a finite value is a whole number of hundredths within 0.005 of the blend with the external xG, or with 1.3 when it is None |
| Statistics.FallbackIsConstantExternal | app/predictor/models.py:86-89 | with no external xG the result is the one for an external xG of 1.3: the branches differ only in that constant |
| Statistics.TotalsKeepResultBound | app/predictor/models.py:97-115 | every total is home plus away, so wins+draws+losses <= matches_played survives summation, and so does equality |
| Statistics.GlobalPossession | app/predictor/models.py:147-150 | finite iff both side possessions are; the sum of two fractions in [0, 1] lies in [0, 2] |
| Statistics.GlobalPossessionCanExceedOne | app/predictor/models.py:147-150 | side possessions 0.6 and 0.55 give a global possession of 1.15: it is a sum, not a mean |
| Statistics.GlobalXg | app/predictor/models.py:152-155 | fails iff either side's xG fails; finite iff both side xGs are; a finite value lies between the side values at equal distance from each |
| Ranking.Distinct | app/predictor/predictor.py:185 | the counter's keys: every element of the draws once, and nothing else |
| Ranking.DistinctInFirstSeenOrder | app/predictor/predictor.py:185 | the counter's keys are in order of first occurrence |
| Ranking.BestPrecedesOthers | app/predictor/predictor.py:185 | the candidate picked first ranks before every other one: higher count, or equal count and seen earlier |
| Ranking.SelectTop | app/predictor/predictor.py:185 | the selection has min(k, candidates) elements |
| Ranking.SelectTopWithin | app/predictor/predictor.py:185 | every selected element is one of the candidates |
| Ranking.SelectTopSorted | app/predictor/predictor.py:185 | the selection is ordered by count, with ties in first-seen order |
| Ranking.SelectTopComplete | app/predictor/predictor.py:185 | every candidate left out ranks after everything selected |
| Ranking.SelectionFromDistinct | app/predictor/predictor.py:183-186 | a selection from the counter's keys has distinct elements of the draws, ranked, and every element left out ranks after every selected one: lower count, or equal count and first seen later |
| Ranking.MostCommon | app/predictor/predictor.py:183-186 | `most_common()[:k]` has min(k, distinct) elements, all distinct and occurring in the input, ordered by count with ties broken by first occurrence; every element left out has a lower count than each listed one, or the same count and a later first occurrence |
| Ranking.MostCommonNonEmpty | app/predictor/predictor.py:185 | `most_common()[:k]` of a positive `k` has an element iff the input does |
| Simulation.Clamp | app/predictor/predictor.py:123-124 | the clamped count is at most 5 and at most the draw; a draw up to 5 is kept and a larger one becomes 5 |
| Simulation.Scores | app/predictor/predictor.py:122-124 | one score per draw; no side ever exceeds `MAX_GOALS` (5); a side drawn at most 5 keeps its draw and one drawn higher becomes 5 |
| Simulation.Classify | app/predictor/predictor.py:127-132 | home win iff home > away, draw iff equal, away win iff home < away |
| Simulation.BelowAndOverAreWhole | app/predictor/predictor.py:137-147 | below `k + 0.5` means at most `k` goals, and over means more than `k` |
| Simulation.CountAppend | app/predictor/predictor.py:122-147 | counting over two runs of iterations adds up |
| Simulation.OutcomesPartition | app/predictor/predictor.py:127-132 | home wins, draws and away wins add up to the number of iterations |
| Simulation.BelowOverPartition | app/predictor/predictor.py:137-147 | for every scope and threshold, below + over is the number of iterations |
| Simulation.BothScoreWithinEachSide | app/predictor/predictor.py:135-147 | btts is at most the home and the away over-0.5 tallies |
| Simulation.ThresholdsMonotone | app/predictor/predictor.py:137-147 | a higher threshold is below at least as often and over at most as often |
| Simulation.ClampedNeverOverMax | app/predictor/predictor.py:123-124 | after clamping, no side is ever over 5.5 |
| Simulation.Run | app/predictor/predictor.py:95-150 | the loop leaves the scores in draw order, and every tally equals the count of its event over the clamped scores |
| Simulation.Percent | app/predictor/predictor.py:152-156 | within one half of 100 * count / iterations; in [0, 100] when the count is at most a positive iteration count; 0 for a negative count of iterations that ran nothing |
| Simulation.PercentMonotone | app/predictor/predictor.py:152-156 | a larger count never gets a smaller percentage |
| Simulation.PercentsOfSplit | app/predictor/predictor.py:157-182 | two counts that split the iterations (below and over) get percentages that add up to between 99 and 101 |
| Simulation.PercentsOfThreeWaySplit | app/predictor/predictor.py:152-155 | the three outcome percentages add up to between 99 and 101 |
| Simulation.ExactScores | app/predictor/predictor.py:183-186 | at most three scores, each occurring in the draws and pairwise different, in the order of `most_common(3)`; each with the percentage of its occurrences, so with positive iterations the percentages never rise down the list |
| Simulation.ThresholdsOfTallies | app/predictor/predictor.py:157-182 | the threshold lists built from complete tallies report the count of below and over for each threshold |
| Simulation.ReportReports | app/predictor/predictor.py:152-187 | the report of complete tallies is the percentage of each count over the scores |
| Simulation.ReportOfNothing | app/predictor/predictor.py:122-187 | with a negative iteration count nothing is simulated and every figure is 0 |
| Simulation.Simulate | app/predictor/predictor.py:84-187 | corrected, with each exact score built as an `ExactScore` as models.py:164-177 declares: fails with a division by zero iff iterations is 0; otherwise every figure is the rounded percentage of its count over the clamped scores |
| Simulation.ExactScoresNonEmpty | app/predictor/predictor.py:183-186 | the exact-score list is empty iff no score was simulated |
| Simulation.SimulateAsWritten | app/predictor/predictor.py:152-187 | as written, the `{"h-a": pct}` dicts fail the validation of `list[ExactScore]`: a division by zero for 0 iterations, `InvalidExactScore` for every positive count, and the all-zero report only for a negative count |
| Simulation.ScopeSplitsHundred | app/predictor/predictor.py:157-182 | in one scope's threshold list, below and over add up to between 99 and 101 at every threshold |
| Simulation.ScopeOrdered | app/predictor/predictor.py:157-182 | in one scope's threshold list, below never falls and over never rises as the threshold goes up |
| Simulation.ExactScoresDescending | app/predictor/predictor.py:183-186 | in a report of positive iterations, the exact-score percentages never rise down the list |
| Simulation.ReportConsistent | app/predictor/predictor.py:152-187 | in any report of positive iterations: outcomes sum to 99..101, btts is at most each side's over-0.5, below + over is 99..101 in every list, every list is monotone in the threshold, and exact-score percentages lie in 0..100 and never rise down the list |
| Predictor.CountResult | app/predictor/predictor.py:36-38 | a result filter never counts more records than there are |
| Predictor.MeanPresent | app/predictor/predictor.py:45-46 | `mean(skipna=True)` is NaN iff no value is present |
| Predictor.TotalWithin | app/predictor/predictor.py:45-46 | the sum of present values between lo and hi lies between lo and hi times their number |
| Predictor.MeanWithin | app/predictor/predictor.py:45-46 | a finite mean of values between lo and hi lies between lo and hi |
| Predictor.PossessionShare | app/predictor/predictor.py:45 | NaN iff every possession is missing; in [0, 1] when every possession is at most 100 |
| Predictor.AggregateStatsAsWritten | app/predictor/predictor.py:33-47 | as written: one match per record with wins+draws+losses within them; possession NaN iff no record has one; the external xG is always set, and is NaN iff no record has an xG |
| Predictor.MissingXgPoisonsAsWritten | app/predictor/predictor.py:46 | as written, a side whose records all lack an xG gets a NaN xG, even when the ratio chain is defined |
| Predictor.AsWrittenCounterexample | app/predictor/predictor.py:46 | one concrete record without xG whose as-written xG is NaN while the corrected one is finite |
| Predictor.AggregateStats | app/predictor/predictor.py:33-47 | corrected: one match per record with wins+draws+losses within them; possession NaN iff no record has one; external xG is None iff every xG is missing, and a set one is finite |
| Predictor.MissingXgFallsBack | app/predictor/models.py:86-90 | with the corrected aggregate, a side without xG but with some possession gets a finite xG through the 1.3 fallback |
| Predictor.ResultsAccountedFor | app/predictor/predictor.py:36-38 | wins+draws+losses <= matches_played, and equality iff every record has a result |
| Predictor.EmptySide | app/predictor/predictor.py:33-47 | an empty side aggregates to 0 matches without failing, with NaN possession; its external xG is NaN as written and unset when corrected |
| Predictor.OnSide | app/predictor/predictor.py:51-52 | the side filter keeps exactly the records on that side |
| Predictor.SidesPartition | app/predictor/predictor.py:51-52 | the two side subsets together are at most all records, and exactly all iff every record has a side |
| Predictor.SidesDisjoint | app/predictor/predictor.py:51-52 | each record lands in at most one side aggregate (multiset inclusion) |
| Predictor.OnSideNoXg | app/predictor/predictor.py:45-52 | the records kept for a side all lack an xG iff every record on that side does |
| Predictor.TransformData | app/predictor/predictor.py:50-58 | as written: the side counts are those of the home and away subsets; the totals count at most all records, all of them when every record has a side, and keep wins+draws+losses <= matches; each side's external xG is set, and NaN iff none of that side's records has an xG |
| Predictor.TransformDataCorrected | app/predictor/predictor.py:50-58 | corrected: the same counts and totals; each side's external xG is unset iff none of that side's records has an xG, and finite otherwise |
| Predictor.RateGap | app/predictor/predictor.py:71-73 | (h - a) / (h + a) lies in [-1, 1]; it is 0 iff the rates are equal, positive iff h > a, 1 iff a is 0, and -1 iff h is 0 |
| Predictor.RateGapAntisymmetric | app/predictor/predictor.py:71-73 | swapping the rates negates the gap |
| Predictor.WinRate | app/predictor/predictor.py:69-70 | the rate times matches_played is wins; it is 0 iff there are no wins |
| Predictor.Advantage | app/predictor/predictor.py:68-73 | the advantage lies in [-0.5, 0.5]; it is 0 iff the win rates are equal and positive iff the home rate is higher; so both factors 1 + adv and 0.9 - adv are at least 0.4 |
| Predictor.SideBlend | app/predictor/predictor.py:75-81 | finite iff the team xG and the side xG both are, and then 0.2 of the team xG plus 0.8 of the side xG |
| Predictor.AdjustXg | app/predictor/predictor.py:68-82 | fails with a division by zero iff a win rate, the advantage or an xG has a zero denominator; otherwise each value is its blend scaled by 1 + adv for home and by 0.9 - adv for away |
| Predictor.AdjustKeepsPositive | app/predictor/predictor.py:75-82 | a positive blended xG stays positive after the adjustment |
| Predictor.Predict | app/predictor/predictor.py:84-91 | corrected: fails iff the adjustment does or iterations is 0; otherwise the report of the draws |
| Predictor.PredictAsWritten | app/predictor/predictor.py:84-187 | as written: returns a report iff the adjustment is defined and iterations is negative; a division by zero when the adjustment fails or iterations is 0, and `InvalidExactScore` for every positive count |
| Extraction.SideFor | app/core/dependencies/matches_data_extraction.py:42-46 | the side is HOME iff the fixture's home id is the team's id |
| Extraction.ResultFor | app/core/dependencies/matches_data_extraction.py:47-53 | WIN iff the winner is `<SIDE>_TEAM`, DRAW iff it is `DRAW`, LOSE for anything else, a missing winner included |
| Extraction.Enrich | app/core/dependencies/matches_data_extraction.py:31-73 | status FINISHED iff the row says so; side and result as above; own and opponent goals; statistics from index 0 for home and 1 for away; shots is the sum of the four shot kinds, so on target + off target <= shots |
| Extraction.PerspectivesMirror | app/core/dependencies/matches_data_extraction.py:47-57 | seen by the home and the away team, goals swap and a win mirrors a loss for the three known winner values; any other winner is a loss for both |
| Extraction.EnrichedRecordsAreComplete | app/core/dependencies/matches_data_extraction.py:42-53 | built records always carry a side and a result, so downstream wins+draws+losses equals matches_played on each side, and the totals count every record |
| LibsPredictor.WinnerValuesDistinct | app/libs/predictor/predictor.py:31-33 | `HOME_TEAM`, `AWAY_TEAM` and `DRAW` are pairwise different |
| LibsPredictor.CountWinner | app/libs/predictor/predictor.py:31-33 | a winner filter never counts more rows than there are |
| LibsPredictor.AggregateSide | app/libs/predictor/predictor.py:19-42 | mp counts every row; gf and ga read the own and the opponent full-time column; wins, draws and losses count the rows naming the own team, `DRAW` and the opponent, so together they never exceed mp, and equal it iff every winner is one of the three known values |
| LibsPredictor.SideResultsAccountedFor | app/libs/predictor/predictor.py:31-33 | the three winner filters are disjoint: their counts add up to at most the rows, and to all of them iff every winner is one of the three known values |
| LibsPredictor.TeamRows | app/libs/predictor/predictor.py:46-47 | the home subset is exactly the rows whose home id is the team's, and the away subset uses the away id |
| LibsPredictor.TransformData | app/libs/predictor/predictor.py:45-63 | the side aggregates are those of the two subsets; mp is the size of both subsets; gf, ga, wins, draws and loses are each the sum of the two side aggregates; wins+draws+loses <= mp |
| LibsPredictor.TeamRowsDisjoint | app/libs/predictor/predictor.py:46-47 | unless a row names the team on both sides, no row is counted twice |
| LibsPredictor.WinRate | app/libs/predictor/predictor.py:72-73 | the rate times mp is wins; it is 0 iff there are no wins |
| LibsPredictor.AdjustXg | app/libs/predictor/predictor.py:71-83 | fails iff a division has a zero divisor; the factors 1 ± adv lie in [0, 2], the away factor is 0 iff the away team has no win, and each value is 0.4 overall + 0.6 own-side xG times its factor |
| LibsPredictor.Predict | app/libs/predictor/predictor.py:85-182 | fails iff the adjustment does or iterations is 0; otherwise both teams' statistics and the report of the draws |
| StatsFlatten.Normalise | app/libs/football_stats_api/service.py:54-55 | each character lower-cased, with a space becoming `_`; the length is kept |
| StatsFlatten.NormaliseIdempotent | app/libs/football_stats_api/service.py:54-55 | normalising twice equals normalising once; a normalised key has no space and no upper-case letter |
| StatsFlatten.KeysDistinguish | app/libs/football_stats_api/service.py:54-55 | a home key never equals an away key, and two keys of a side are equal iff the normalised types are |
| StatsFlatten.LeadingDigits | app/libs/football_stats_api/service.py:58-59 | the longest prefix made of digits: all digits, and followed by a non-digit or the end |
| StatsFlatten.FirstNumber | app/libs/football_stats_api/service.py:58-65 | missing (NaN) iff the text has no digit |
| StatsFlatten.ShowNatValue | app/libs/football_stats_api/service.py:58-60 | `int` of the decimal text of `n` is `n` |
| StatsFlatten.FirstNumberRoundTrip | app/libs/football_stats_api/service.py:58-65 | a number with no digit before it and none right after it, as in "55%", reads back as that number |
| StatsFlatten.InsertNew | app/libs/football_stats_api/service.py:57-66 | each key is added only if it is new, then with the parse of its own side's text; existing keys keep their values |
| StatsFlatten.AddEntryAsWritten | app/libs/football_stats_api/service.py:53-80 | as written, the override compares a number with the text "0" and never fires: the entry adds its two keys, sets only the new ones from its own side's text, and keeps every stored value |
| StatsFlatten.AddEntry | app/libs/football_stats_api/service.py:53-80 | corrected: a stored pair of zeros is replaced by a later entry of the type whose texts are not both "0"; without stored zeros it only inserts new keys |
| StatsFlatten.FlattenHasKeys | app/libs/football_stats_api/service.py:52-82 | as written, every entry's type has its home and its away key |
| StatsFlatten.FlattenOnlyKeys | app/libs/football_stats_api/service.py:52-82 | as written, every key is the home or the away key of some entry's type |
| StatsFlatten.FlattenKeysAgree | app/libs/football_stats_api/service.py:52-82 | the corrected override changes values, never keys: both flattenings have the same keys |
| StatsFlatten.FlattenKeepsValues | app/libs/football_stats_api/service.py:57-66 | as written, a key's value never changes once set |
| StatsFlatten.AbsentKind | app/libs/football_stats_api/service.py:54-57 | a type no entry normalises to has no key |
| StatsFlatten.FirstOccurrenceWins | app/libs/football_stats_api/service.py:57-66 | as written, the first entry of a normalised type decides both values, each parsed from its own side's text |
| StatsFlatten.AgreesWithoutZeros | app/libs/football_stats_api/service.py:68-80 | when no text reads as 0, the corrected and the as-written flattening agree |
| StatsFlatten.ZerosKeptAsWritten | app/libs/football_stats_api/service.py:68-80 | as written, "0"/"0" followed by "5"/"3" for the same type keeps 0 |
| StatsFlatten.ZerosReplaced | app/libs/football_stats_api/service.py:68-80 | corrected, the same input gives 5 and 3 |
| StatsFlatten.FlattenEmpty | app/libs/football_stats_api/service.py:50-52 | an empty statistics list gives an empty map |

## Left out

- The Poisson draws of `np.random.poisson` are taken as an input sequence. Nothing is claimed about their distribution or about convergence.
- `math.exp2` and `math.log` are uninterpreted parameters. Their domain is not modelled: `math.log` raises `ValueError` on a non-positive blend input, and that is not modelled.
- Float rounding error is not modelled. Values are exact rationals, so percentages and `round(x, 2)` are not bit-exact.
- numpy's `poisson` raises `ValueError` on a NaN or negative rate. The simulation takes draws rather than rates, so that error is not modelled.
- pandas `KeyError` on a missing column is not modelled. Records are typed and every column exists.
- The livescore per-side dictionary is a typed record, so `KeyError` on a missing statistic is not modelled. `Extraction.Enrich` requires the statistics list to hold the side's index instead of modelling `IndexError`.
- `passes_accuracy_avg` of the provider-row aggregate is not modelled. It is a numpy division of two sums that yields inf or NaN on zero, and nothing downstream in the core reads it.
- `PredictorError` (app/predictor/predictor.py:86-89) is not modelled. The guard cannot fire, because the fields are only annotated and never set to `None`. `Predictor.Predict` takes the aggregated statistics directly.
- Calling the provider-row `simulate` before `enhance_team_statistics` is not modelled. It would be an `AttributeError` on `None`, and the model passes the statistics in.
- `TeamAllStats.xg` and `TeamSideStats.xg` of the provider-row predictor are not part of this model. Their values enter `LibsPredictor.AdjustXg` as opaque reals.
- `lower()` and `\d` are ASCII only; Python's Unicode case mapping and digit classes are not modelled.
- The corrected simulation keeps an exact score as the pair of goals; the text of the `"h-a"` label is not modelled.
- The flattened statistics are a map. The order of the keys in the pandas Series is not kept.
- HTTP clients, database sessions, configuration, route handlers, migrations, `_retrieve_matches` with its clock and `sleep`, and logging are I/O and glue, and are not part of this model.
- Simulation.PercentsOfSplit: percentages are rounded from exact rationals, so the model could promise below + over == 100; it promises only 99..101, because with float division the program can round both halves of a split the same way, as for 4250 and 5750 of 10000 iterations. The same holds for Simulation.ScopeSplitsHundred and Simulation.ReportConsistent.
- Simulation.Percent: states the value within one half of the exact percentage and the tie rule of `Floats.RoundHalfEven`. It does not state binary float error.
- Statistics.Xg: says nothing about the value of `exp2` or `ln`. It states the error and NaN cases and the rounding of the blend.

## Findings

| source | as written | input that shows it | evidently intended | confidence | as-written member | corrected member |
|---|---|---|---|---|---|---|
| app/predictor/predictor.py:46 | `external_xg` is `mean(skipna=True)` of the xG column. With no xG at all that is NaN, not `None`, so the `is not None` test of models.py:86 takes the external branch and the xG becomes NaN. | one side whose only record has counts 2 goals, 8 shots, 4 on target, possession 55 and no xG | a side without any external xG falls back to the constant 1.3 | high, not executed | Predictor.AggregateStatsAsWritten, Predictor.TransformData, Predictor.MissingXgPoisonsAsWritten, Predictor.AsWrittenCounterexample | Predictor.AggregateStats, Predictor.TransformDataCorrected, Predictor.MissingXgFallsBack |
| app/libs/football_stats_api/service.py:68-80 | The override compares the stored values, an int or NaN, with the string "0". That is never true, so a later duplicate entry never replaces zeros stored by an earlier one. | entries ("Shots", "0", "0") then ("Shots", "5", "3") keep home.shots = 0 | stored zeros are replaced by a later entry of the same type whose texts are not both "0" | medium, not executed | StatsFlatten.AddEntryAsWritten, StatsFlatten.ZerosKeptAsWritten | StatsFlatten.AddEntry, StatsFlatten.ZerosReplaced, StatsFlatten.AgreesWithoutZeros |
| app/predictor/predictor.py:183-186 | The exact scores reach `Prediction` as one-entry dicts `{"h-a": pct}`. The `exact_score` field is `list[ExactScore]` (models.py:164-177), whose items need `score` and `probability`, so the model validation rejects every such dict; the route at app/api/v1/simulations.py:66-75 catches only `PredictorError`. | any run with `iterations = 1` and one draw: the exact-score list has one entry | each exact score is an `ExactScore` with the `"h-a"` label as `score` and the percentage as `probability` | high, not executed | Simulation.SimulateAsWritten, Predictor.PredictAsWritten, Simulation.ExactScoresNonEmpty | Simulation.Simulate, Predictor.Predict |
