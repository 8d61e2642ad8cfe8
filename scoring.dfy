/** The scoring engine: a per-game accumulator that turns the stream of
    correct/incorrect answers into a raw score and a guess-corrected,
    concave "adjusted score". */
module Scoring {
  import opened JsMath
  import Rounds

  /** Points a correct answer adds to the raw score. */
  const CorrectWeight: real := 4.0

  /** The number of `true` outcomes in an answer history. */
  function CountCorrect(history: seq<bool>): (n: nat)
    ensures n <= |history|
  {
    if history == [] then 0
    else CountCorrect(history[..|history| - 1]) + (if history[|history| - 1] then 1 else 0)
  }

  /** A history of correct answers only counts every answer as correct. */
  lemma {:induction false} AllCorrectCount(history: seq<bool>)
    requires forall i :: 0 <= i < |history| ==> history[i]
    ensures CountCorrect(history) == |history|
  {
    if history != [] {
      AllCorrectCount(history[..|history| - 1]);
    }
  }

  /** A history with no correct answer counts none. */
  lemma {:induction false} NoCorrectCount(history: seq<bool>)
    requires forall i :: 0 <= i < |history| ==> !history[i]
    ensures CountCorrect(history) == 0
  {
    if history != [] {
      NoCorrectCount(history[..|history| - 1]);
    }
  }

  /** The guess-corrected base score: four thirds of the lead of the raw score
      over the number of rounds played, floored at zero. Random guessing
      among four options has an expected raw score equal to the rounds played. */
  function BaseScore(rawScore: real, totalAnswers: nat): (b: real)
    ensures b >= 0.0
    ensures b >= (4.0 / 3.0) * (rawScore - totalAnswers as real)
    ensures b == 0.0 || b == (4.0 / 3.0) * (rawScore - totalAnswers as real)
  {
    MaxZero((4.0 / 3.0) * (rawScore - totalAnswers as real))
  }

  /** The concave transform of the base score: 43b/28 - 3b^2/560. */
  function Adjust(b: real): (a: real)
  {
    (43.0 * b) / 28.0 - (3.0 * (b * b)) / 560.0
  }

  /** The adjusted score of a state, a function of the raw score and the
      number of rounds played only. */
  function AdjustedScore(rawScore: real, totalAnswers: nat): (s: real)
  {
    Adjust(BaseScore(rawScore, totalAnswers))
  }

  /** The transform is non-decreasing up to its vertex at b = 430/3. */
  lemma AdjustMonotone(b1: real, b2: real)
    requires 0.0 <= b1 <= b2 <= 430.0 / 3.0
    ensures Adjust(b1) <= Adjust(b2)
  {
    var gap := b2 - b1;
    var slope := 860.0 - 3.0 * (b1 + b2);
    assert gap >= 0.0 && slope >= 0.0;
    assert Adjust(b2) - Adjust(b1) == gap * slope / 560.0;
    assert gap * slope >= 0.0;
  }

  /** On base scores in [0, 100] the transform stays in [0, 100], and it
      maps a perfect base score of 100 to exactly 100. */
  lemma AdjustRange(b: real)
    requires 0.0 <= b <= 100.0
    ensures 0.0 <= Adjust(b) <= 100.0
    ensures Adjust(0.0) == 0.0 && Adjust(100.0) == 100.0
  {
    AdjustMonotone(0.0, b);
    AdjustMonotone(b, 100.0);
  }

  /** Within the round limit the adjusted score of any reachable counter pair
      lies in [0, 100]. */
  lemma ScoreWithinRange(correct: nat, total: nat)
    requires correct <= total <= Rounds.MaxQuestions
    ensures 0.0 <= AdjustedScore(CorrectWeight * correct as real, total) <= 100.0
  {
    var b := BaseScore(CorrectWeight * correct as real, total);
    assert b <= 4.0 * total as real;
    AdjustRange(b);
  }

  /** Within the round limit, for a fixed number of rounds, more correct
      answers never give a lower adjusted score. */
  lemma ScoreMonotoneInCorrect(c1: nat, c2: nat, total: nat)
    requires c1 <= c2 <= total <= Rounds.MaxQuestions
    ensures AdjustedScore(CorrectWeight * c1 as real, total)
         <= AdjustedScore(CorrectWeight * c2 as real, total)
  {
    var b1 := BaseScore(CorrectWeight * c1 as real, total);
    var b2 := BaseScore(CorrectWeight * c2 as real, total);
    assert b2 <= 4.0 * total as real;
    AdjustMonotone(b1, b2);
  }

  /** The round limit is what keeps the score monotone: over 50 rounds, 49
      correct answers score higher than 50. */
  lemma UncappedNotMonotone()
    ensures AdjustedScore(CorrectWeight * 49.0, 50) > AdjustedScore(CorrectWeight * 50.0, 50)
  {
  }

  /** The per-game scoring state (`window.gameState`). The ghost `history`
      is the sequence of outcomes recorded so far. */
  class GameState {
    var rawScore: real
    var adjustedScore: real
    var totalAnswers: nat
    var correctAnswers: nat
    ghost var history: seq<bool>

    ghost predicate Valid()
      reads this
    {
      && totalAnswers == |history|
      && correctAnswers == CountCorrect(history)
      && rawScore == CorrectWeight * correctAnswers as real
      && adjustedScore == AdjustedScore(rawScore, totalAnswers)
    }

    constructor ()
      ensures Valid() && history == []
      ensures rawScore == 0.0 && adjustedScore == 0.0
      ensures totalAnswers == 0 && correctAnswers == 0
    {
      rawScore := 0.0;
      adjustedScore := 0.0;
      totalAnswers := 0;
      correctAnswers := 0;
      history := [];
    }

    /** Record one answer and return the recomputed adjusted score. */
    method UpdateScore(isCorrect: bool) returns (adjusted: real)
      requires Valid()
      modifies this
      ensures Valid()
      ensures history == old(history) + [isCorrect]
      ensures totalAnswers == old(totalAnswers) + 1
      ensures correctAnswers == old(correctAnswers) + (if isCorrect then 1 else 0)
      ensures rawScore == old(rawScore) + (if isCorrect then CorrectWeight else 0.0)
      ensures adjusted == adjustedScore == AdjustedScore(rawScore, totalAnswers)
    {
      totalAnswers := totalAnswers + 1;
      if isCorrect {
        rawScore := rawScore + CorrectWeight;
        correctAnswers := correctAnswers + 1;
      }
      history := history + [isCorrect];
      assert history[..|history| - 1] == old(history);

      var baseScore := BaseScore(rawScore, totalAnswers);
      adjustedScore := Adjust(baseScore);
      adjusted := adjustedScore;
    }

    /** `get_accuracy`: the percentage of correct answers rounded to the
        nearest integer, 0 before any answer. */
    function Accuracy(): (percent: int)
      reads this
      ensures totalAnswers == 0 ==> percent == 0
      ensures totalAnswers > 0 ==>
                var exact := (correctAnswers as real / totalAnswers as real) * 100.0;
                exact - 0.5 < percent as real <= exact + 0.5
      ensures correctAnswers <= totalAnswers ==> 0 <= percent <= 100
    {
      if totalAnswers == 0 then 0
      else Round((correctAnswers as real / totalAnswers as real) * 100.0)
    }

    /** `total_answers`: the number of answers recorded. */
    function TotalAnswers(): (n: nat)
      reads this
      requires Valid()
      ensures n == |history|
    {
      totalAnswers
    }

    /** `correct_answers`: the number of correct answers recorded. */
    function CorrectAnswers(): (n: nat)
      reads this
      requires Valid()
      ensures n == CountCorrect(history)
      ensures n <= TotalAnswers()
    {
      correctAnswers
    }

    /** Seven correct answers out of ten give 70 percent accuracy. */
    lemma AccuracySevenOfTen()
      requires totalAnswers == 10 && correctAnswers == 7
      ensures Accuracy() == 70
    {
    }

    /** Every reachable state keeps the counters consistent, and within the
        round limit keeps the adjusted score in [0, 100]. */
    lemma Consistent()
      requires Valid()
      ensures correctAnswers <= totalAnswers
      ensures rawScore == CorrectWeight * correctAnswers as real
      ensures totalAnswers <= Rounds.MaxQuestions ==> 0.0 <= adjustedScore <= 100.0
    {
      if totalAnswers <= Rounds.MaxQuestions {
        ScoreWithinRange(correctAnswers, totalAnswers);
      }
    }

    /** A full game of correct answers ends with an adjusted score of exactly
        100; a game without one ends at 0. */
    lemma PerfectAndBlankGames()
      requires Valid()
      ensures (|history| == Rounds.MaxQuestions && forall i :: 0 <= i < |history| ==> history[i])
                ==> adjustedScore == 100.0
      ensures (forall i :: 0 <= i < |history| ==> !history[i]) ==> adjustedScore == 0.0
    {
      if |history| == Rounds.MaxQuestions && forall i :: 0 <= i < |history| ==> history[i] {
        AllCorrectCount(history);
        AdjustRange(100.0);
      }
      if forall i :: 0 <= i < |history| ==> !history[i] {
        NoCorrectCount(history);
      }
    }
  }
}
