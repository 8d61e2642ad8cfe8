# Locutra scoring and ranking engine, in Dafny

Locutra is a browser geography quiz: each round shows the outline of a region
and four names, the game runs for at most 25 rounds, and at the end it reports
an adjusted score, a percentile and a letter rank. This project models the
game's scoring and ranking engine, all of it in `src/assets/js/main.js`, and
proves properties of the model:

- `jsmath.dfy`, module `JsMath`: the two JavaScript built-ins the engine uses.
  `Math.max(0, v)` is `MaxZero`. `Math.round` is `Round`, which rounds to the
  nearest integer with ties going up.
- `scoring.dfy`, module `Scoring`: the `GameState` class (`window.gameState`).
  `UpdateScore` records one answer. The adjusted score is rebuilt from scratch
  each time: a guess-corrected base score `b = max(0, 4/3 (raw - total))`, then
  the concave transform `43b/28 - 3b^2/560`. The class also has the accuracy
  function and the two counter accessors. A ghost `history` holds the outcomes
  recorded so far, so that the counters can be stated as "the number of
  answers" and "the number of correct answers".
- `distribution.dfy`, module `Distribution`: the 21-coefficient density table
  and `evaluatePolynomial`, a loop that accumulates coefficient times power and
  then clamps the result at zero. It also has `trapezoidalIntegral`, the
  composite trapezoid rule with a loop over the interior points, then
  `calculatePercentile` over 1000 sub-intervals and the `calculateRank` ladder.
  Each loop is a method proved against a recursive specification function
  (`PartialSum`, `InteriorSum`/`WeightedSum`). The polynomial sum is also
  proved equal to an independent Horner-form definition.
- `rounds.dfy`, module `Rounds`: the round limit (`MAX_QUESTIONS = 25`) and the
  area-selection rule of `startNewQuestion`, as a class over the set of used
  area ids. The `Math.random()` draw is a parameter in [0, 1).

All scores, densities and integrals are exact reals. The coefficients are
written out as the exact decimals of the source's literals.

Two points about the percentile follow the code as written:

- `main.js:144` divides by the total area without a guard. `Percentile` is
  stated for any coefficient table with a positive total area. For the fitted
  table that area is proved positive (`TotalAreaPositive`), so
  `CalculatePercentile` and `CalculateRank` have no precondition.
- The percentile is not claimed to be non-decreasing in the score. The two
  integrals use different grids (the step width depends on the score), and
  nothing in the code establishes it.

## Model

| member | source | states |
|---|---|---|
| JsMath.MaxZero | src/assets/js/main.js:94 | `Math.max(0, v)` is at least 0 and at least `v`, and is one of the two |
| JsMath.Round | src/assets/js/main.js:102 | `Math.round(x)` is the integer within half a unit of `x`, ties going up |
| Scoring.CountCorrect | src/assets/js/main.js:87-92 | the count of correct outcomes in a history never exceeds the history's length |
| Scoring.AllCorrectCount | src/assets/js/main.js:87-92 | a history of correct answers only counts every answer as correct |
| Scoring.NoCorrectCount | src/assets/js/main.js:87-92 | a history with no correct answer counts none |
| Scoring.BaseScore | src/assets/js/main.js:94 | the base score is the larger of 0 and 4/3 of (raw score - rounds played): never negative |
| Scoring.AdjustMonotone | src/assets/js/main.js:95 | the transform `43b/28 - 3b^2/560` is non-decreasing for b in [0, 430/3] |
| Scoring.AdjustRange | src/assets/js/main.js:94-95 | for b in [0, 100] the adjusted score is in [0, 100]; b = 0 gives 0 and b = 100 gives exactly 100 |
| Scoring.ScoreWithinRange | src/assets/js/main.js:94-95 | with correct <= total <= 25 (the round limit), the adjusted score of raw score 4*correct is in [0, 100] |
| Scoring.ScoreMonotoneInCorrect | src/assets/js/main.js:94-95 | for a fixed number of rounds up to 25, more correct answers never give a lower adjusted score |
| Scoring.UncappedNotMonotone | src/assets/js/main.js:94-95 | without the round limit monotonicity fails: over 50 rounds, 49 correct answers outscore 50 |
| Scoring.GameState.constructor | src/assets/js/main.js:80-85 | a new game has every counter and score at 0, an empty history and a valid state |
| Scoring.GameState.UpdateScore | src/assets/js/main.js:87-98 | total +1; correct +1 and raw score +4 exactly when the answer is correct; the returned value equals the stored adjusted score, which is the formula applied to (raw score, total) only; the invariant (total = history length, correct = count of correct outcomes, raw = 4*correct) is kept |
| Scoring.GameState.Accuracy | src/assets/js/main.js:100-103 | 0 with no answers; otherwise the integer nearest 100*correct/total (ties up); within [0, 100] whenever correct <= total |
| Scoring.GameState.TotalAnswers | src/assets/js/main.js:105-107 | the accessor returns the number of answers recorded, without changing state |
| Scoring.GameState.CorrectAnswers | src/assets/js/main.js:109-111 | the accessor returns the number of correct answers recorded, at most the total, without changing state |
| Scoring.GameState.AccuracySevenOfTen | src/assets/js/main.js:100-103 | 7 correct answers out of 10 give accuracy 70 |
| Scoring.GameState.Consistent | src/assets/js/main.js:87-95 | every valid state has correct <= total and raw = 4*correct, and with at most 25 answers an adjusted score in [0, 100] |
| Scoring.GameState.PerfectAndBlankGames | src/assets/js/main.js:94-97 | 25 correct answers out of 25 give an adjusted score of exactly 100; no correct answer gives 0 |
| Distribution.PartialSumShift | src/assets/js/main.js:114-124 | the power-accumulated sum splits as c[0] + x * (sum over the remaining coefficients) |
| Distribution.HornerAtZero | src/assets/js/main.js:114-124 | at x = 0 the polynomial equals its constant term |
| Distribution.SumIsHorner | src/assets/js/main.js:114-124 | the sum of c[i]*x^i that the loop accumulates equals the Horner-form polynomial |
| Distribution.Density | src/assets/js/main.js:123 | the density is never negative |
| Distribution.DensityIsClampedHorner | src/assets/js/main.js:114-124 | the density is the polynomial clamped at 0: equal to it wherever it is non-negative |
| Distribution.EvaluatePolynomial | src/assets/js/main.js:114-124 | the loop (result += coef*power; power *= x) returns the clamped polynomial `max(0, sum c[i] x^i)` |
| Distribution.InteriorSum | src/assets/js/main.js:132-135 | the sum of densities over the interior grid points is non-negative |
| Distribution.WeightedSum | src/assets/js/main.js:129-135 | the trapezoid weighted sum (half weight at the two ends) is non-negative |
| Distribution.TrapezoidSign | src/assets/js/main.js:127-138 | the trapezoid integral over [s, s] is 0, over [s, e] with s <= e it is >= 0, and with s >= e it is <= 0 |
| Distribution.TrapezoidalIntegral | src/assets/js/main.js:127-138 | the loop over i = 1 .. steps-1 returns exactly the composite trapezoid rule with `steps` equal sub-intervals |
| Distribution.RoundedShare | src/assets/js/main.js:144 | `round(part/whole*100)` with whole > 0 is 0 for part 0, 100 for part = whole, and has the sign of part |
| Distribution.PercentileEnds | src/assets/js/main.js:140-144 | with a positive total area, score 0 has percentile 0, score 100 has percentile 100, and a non-negative score a non-negative percentile |
| Distribution.TotalAreaPositive | src/assets/js/main.js:140-144 | the 1000-step integral of the fitted table over [0, 100] is positive, so the division at line 144 never has a zero divisor |
| Distribution.FittedPercentileEnds | src/assets/js/main.js:140-144 | for the fitted table, score 0 has percentile 0 and score 100 has percentile 100 |
| Distribution.CalculatePercentile | src/assets/js/main.js:126-145 | for every score, the method computes both 1000-step integrals over the fitted table (whose total area is positive) and returns the rounded ratio `Percentile(score)` |
| Distribution.RankOf | src/assets/js/main.js:150-155 | the rank is the best one whose inclusive lower bound (95, 80, 60, 40, 20) the percentile reaches, F when it reaches none |
| Distribution.RankMonotone | src/assets/js/main.js:150-155 | a higher percentile never earns a worse rank |
| Distribution.RankBoundaries | src/assets/js/main.js:150-155 | 95 gives S and 94 gives A; 80 gives A and 79 gives B; 20 gives D and 19 gives F |
| Distribution.CalculateRank | src/assets/js/main.js:147-156 | the rank of a score is the ladder applied to the score's percentile |
| Rounds.AvailableAreas | src/assets/js/main.js:442-444 | the filter keeps exactly the listed regions not yet used, and is no longer than the list |
| Rounds.RandomIndex | src/assets/js/main.js:453 | `floor(random * n)` for a draw in [0, 1) is a valid index below n |
| Rounds.PoolExhaustedIffAllUsed | src/assets/js/main.js:442-449 | no region is available exactly when every listed region has been used |
| Rounds.QuizFlow.constructor | src/assets/js/main.js:22-38 | a new flow has no used area, no current area and a valid state |
| Rounds.QuizFlow.StartNewQuestion | src/assets/js/main.js:436-455 | game over (no list, 25 used, or pool exhausted) leaves the state unchanged; otherwise the drawn area is an unused listed one, it becomes current and is added to the used set, which grows by exactly one and never passes 25 |
| Rounds.QuizFlow.Restart | src/assets/js/main.js:619 | restarting empties the used set and keeps the state valid |

## Left out

- Floating point: every score, density and integral is an exact real. IEEE-754 rounding, the binary value of each coefficient literal, and the NaN or Infinity a zero total area would produce are not modelled.
- Concrete percentiles of particular scores other than 0 and 100 are not computed. They depend on evaluating the degree-20 table at 1001 points.
- Monotonicity of the percentile in the score: the code does not establish it (see above).
- `Distribution.Percentile` is not claimed to lie in [0, 100] for scores in [0, 100]. The integral up to the score uses its own grid, so nothing bounds it by the total area.
- `calculateRank` returns the strings "S" to "F"; the model returns the constructors of the `Rank` datatype, one per letter.
- The selection rule leaves out what happens after an area is chosen: loading its map data (`loadRegionData`), drawing it, and generating and shuffling the answer options (`generateOptions`, `shuffleArray`). A `None` result of `StartNewQuestion` stands for the call to `showGameOver`.
- `Rounds.QuizFlow.StartNewQuestion` does not model the `try`/`catch` around loading: a failed map load is only logged after the area has been marked used.
- The region list is a constructor argument. `initApp`, WASM geo-data loading and map registration are not modelled.
- The bound of 25 answers in the scoring lemmas comes from the round controller calling `update_score` once per question (`checkAnswer`). That call, its `isAnswering` re-entrancy guard and the timers are UI event handling and are not modelled. The lemmas take `total <= 25` as a hypothesis.
- Rendering is not modelled: the distribution chart, progress bar, loading screen, button text sizing, and the mirrored display copies of the counters in the global `state` object.
- Restarting the game replaces `window.gameState` with a new `GameState`; the model shows this only as the constructor.
