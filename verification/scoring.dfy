/**
 * The score formulas of `GameGenerator`: one per game type and the
 * `calculateScore` dispatch over the game-type tag.
 *
 * Every score is a base (points per correct item), an accuracy bonus and a
 * time bonus `max(0, cap - timeInSeconds)`. Counts are natural numbers and
 * the time is a whole number of seconds, so every sum is an integer and
 * `Math.round` leaves it as it is. The accuracy percentage
 * `(correct / total) * 100` is computed exactly, as a `real`; a zero total
 * follows JavaScript's division by zero (see `Percentage`).
 */
module Scoring {
  import opened Common
  import opened GameGenerator

  /** The fields of `gameData` the scorers read. */
  datatype ScoreData = ScoreData(
    totalPairs: nat, correctPairs: nat,
    totalTerms: nat, correctAssociations: nat,
    totalQuestions: nat, correctAnswers: nat,
    totalWords: nat, wordsFound: nat,
    timeInSeconds: int)

  /** `Math.max(0, cap - timeInSeconds)`. */
  function TimeBonus(cap: int, t: int): (b: nat)
    ensures b >= cap - t
    ensures t <= cap ==> b == cap - t
    ensures t >= cap ==> b == 0
  {
    if t < cap then cap - t else 0
  }

  /**
   * The result of `(correct / total) * 100` in JavaScript: the exact
   * percentage when the total is positive; for a zero total, `Infinity` when
   * some item is correct and `NaN` when none is.
   */
  datatype Percentage = Finite(p: real) | Infinity | NaN

  function Accuracy(total: nat, correct: nat): (a: Percentage)
    ensures total > 0 ==> a.Finite? && a.p * total as real == 100.0 * correct as real
    ensures total == 0 ==> (a == Infinity <==> correct > 0)
  {
    if total > 0 then Finite((correct as real / total as real) * 100.0)
    else if correct > 0 then Infinity
    else NaN
  }

  /** `percentage >= threshold`: `Infinity` passes every threshold, `NaN` none. */
  predicate AtLeast(a: Percentage, threshold: real) {
    match a
    case Finite(p) => p >= threshold
    case Infinity => true
    case NaN => false
  }

  /**
   * Comparing the percentage with a threshold of k per cent is the integer
   * test `100 * correct >= k * total` when the total is positive.
   */
  lemma {:induction false} AtLeastIsIntegerTest(total: nat, correct: nat, k: nat)
    requires total > 0
    ensures AtLeast(Accuracy(total, correct), k as real) <==> 100 * correct >= k * total
  {
    var a := Accuracy(total, correct);
    var T := total as real;
    assert a.p * T == 100.0 * correct as real;
    if a.p >= k as real {
      assert a.p * T >= k as real * T;
    } else {
      assert a.p * T < k as real * T;
    }
  }

  /** The accuracy bonus with two tiers: `top` from `high` per cent, `low` from `mid` per cent. */
  function Tier(total: nat, correct: nat, high: nat, top: nat, mid: nat, low: nat): nat {
    var a := Accuracy(total, correct);
    if AtLeast(a, high as real) then top else if AtLeast(a, mid as real) then low else 0
  }

  /**
   * With a positive total the tiers are integer tests; with a zero total the
   * top tier is paid exactly when some item is correct.
   */
  lemma {:induction false} TierIntegerTests(total: nat, correct: nat, high: nat, top: nat, mid: nat, low: nat)
    ensures total > 0 ==>
      Tier(total, correct, high, top, mid, low) ==
        if 100 * correct >= high * total then top
        else if 100 * correct >= mid * total then low
        else 0
    ensures total == 0 ==> Tier(total, correct, high, top, mid, low) == if correct > 0 then top else 0
  {
    if total > 0 {
      AtLeastIsIntegerTest(total, correct, high);
      AtLeastIsIntegerTest(total, correct, mid);
    }
  }

  /** More correct items never move the bonus to a lower tier. */
  lemma {:induction false} TierMonotone(total: nat, c1: nat, c2: nat, high: nat, top: nat, mid: nat, low: nat)
    requires c1 <= c2
    requires mid <= high && low <= top
    ensures Tier(total, c1, high, top, mid, low) <= Tier(total, c2, high, top, mid, low)
  {
    TierIntegerTests(total, c1, high, top, mid, low);
    TierIntegerTests(total, c2, high, top, mid, low);
  }

  /**
   * `calculateMemoryScore`: 100 per correct pair, 200 for completing every
   * pair, and the time bonus capped at 300 seconds.
   */
  function MemoryScore(totalPairs: nat, correctPairs: nat, t: int): (r: nat)
    ensures r >= 100 * correctPairs
    ensures correctPairs == totalPairs ==> r >= 100 * correctPairs + 200
    ensures t >= 0 ==> r <= 100 * correctPairs + 200 + 300
    ensures t >= 300 && correctPairs != totalPairs ==> r == 100 * correctPairs
    ensures r == 100 * correctPairs + Max(0, 300 - t) + (if correctPairs == totalPairs then 200 else 0)
  {
    correctPairs * 100 + TimeBonus(300, t) + (if correctPairs == totalPairs then 200 else 0)
  }

  /**
   * `calculateAssociationScore`: 150 per correct association, 300 for
   * completing every term, and the time bonus capped at 240 seconds.
   */
  function AssociationScore(totalTerms: nat, correctAssociations: nat, t: int): (r: nat)
    ensures r >= 150 * correctAssociations
    ensures correctAssociations == totalTerms ==> r >= 150 * correctAssociations + 300
    ensures t >= 0 ==> r <= 150 * correctAssociations + 300 + 240
    ensures t >= 240 && correctAssociations != totalTerms ==> r == 150 * correctAssociations
    ensures r == 150 * correctAssociations + Max(0, 240 - t) + (if correctAssociations == totalTerms then 300 else 0)
  {
    correctAssociations * 150 + TimeBonus(240, t) + (if correctAssociations == totalTerms then 300 else 0)
  }

  /**
   * `calculateQuizScore`: 200 per correct answer, 400 from 80% accuracy or
   * 200 from 60%, and the time bonus capped at 180 seconds.
   */
  function QuizScore(totalQuestions: nat, correctAnswers: nat, t: int): (r: nat)
    ensures r >= 200 * correctAnswers
    ensures t >= 0 ==> r <= 200 * correctAnswers + 400 + 180
  {
    correctAnswers * 200 + Tier(totalQuestions, correctAnswers, 80, 400, 60, 200) + TimeBonus(180, t)
  }

  /**
   * `calculateWordSearchScore`: 250 per word found, 500 from 90% of the words
   * or 300 from 70%, and the time bonus capped at 600 seconds.
   */
  function WordSearchScore(totalWords: nat, wordsFound: nat, t: int): (r: nat)
    ensures r >= 250 * wordsFound
    ensures t >= 0 ==> r <= 250 * wordsFound + 500 + 600
  {
    wordsFound * 250 + Tier(totalWords, wordsFound, 90, 500, 70, 300) + TimeBonus(600, t)
  }

  /** The quiz bonus is 400 from 80% and 200 from 60%, as integer tests on the counts. */
  lemma {:induction false} QuizScoreTiers(totalQuestions: nat, correctAnswers: nat, t: int)
    requires totalQuestions > 0
    ensures QuizScore(totalQuestions, correctAnswers, t) == 200 * correctAnswers + TimeBonus(180, t) +
      if 100 * correctAnswers >= 80 * totalQuestions then 400
      else if 100 * correctAnswers >= 60 * totalQuestions then 200
      else 0
  {
    TierIntegerTests(totalQuestions, correctAnswers, 80, 400, 60, 200);
  }

  /** The word-search bonus is 500 from 90% and 300 from 70%, as integer tests on the counts. */
  lemma {:induction false} WordSearchScoreTiers(totalWords: nat, wordsFound: nat, t: int)
    requires totalWords > 0
    ensures WordSearchScore(totalWords, wordsFound, t) == 250 * wordsFound + TimeBonus(600, t) +
      if 100 * wordsFound >= 90 * totalWords then 500
      else if 100 * wordsFound >= 70 * totalWords then 300
      else 0
  {
    TierIntegerTests(totalWords, wordsFound, 90, 500, 70, 300);
  }

  /** Finishing later never raises a score. */
  lemma {:induction false} ScoresNonIncreasingInTime(total: nat, correct: nat, t1: int, t2: int)
    requires t1 <= t2
    ensures MemoryScore(total, correct, t1) >= MemoryScore(total, correct, t2)
    ensures AssociationScore(total, correct, t1) >= AssociationScore(total, correct, t2)
    ensures QuizScore(total, correct, t1) >= QuizScore(total, correct, t2)
    ensures WordSearchScore(total, correct, t1) >= WordSearchScore(total, correct, t2)
  {
  }

  /** Up to the total, more correct items never lower a score. */
  lemma {:induction false} ScoresMonotoneInCorrect(total: nat, c1: nat, c2: nat, t: int)
    requires c1 <= c2 <= total
    ensures MemoryScore(total, c1, t) <= MemoryScore(total, c2, t)
    ensures AssociationScore(total, c1, t) <= AssociationScore(total, c2, t)
    ensures QuizScore(total, c1, t) <= QuizScore(total, c2, t)
    ensures WordSearchScore(total, c1, t) <= WordSearchScore(total, c2, t)
  {
    TierMonotone(total, c1, c2, 80, 400, 60, 200);
    TierMonotone(total, c1, c2, 90, 500, 70, 300);
  }

  /** Worked values: all five pairs in 100 s; 9 of 10 answers in 200 s; 7 of 10 words in 610 s. */
  lemma {:induction false} ScoreExamples()
    ensures MemoryScore(5, 5, 100) == 900
    ensures QuizScore(10, 9, 200) == 2200
    ensures WordSearchScore(10, 7, 610) == 2050
  {
    TierIntegerTests(10, 9, 80, 400, 60, 200);
    TierIntegerTests(10, 7, 90, 500, 70, 300);
  }

  /**
   * `calculateScore`: the scorer of the tag's game type on that type's
   * fields, and 0 for an unknown tag.
   */
  function CalculateScore(tag: string, data: ScoreData): (r: nat)
    ensures ParseType(tag).None? ==> r == 0
  {
    match ParseType(tag)
    case None => 0
    case Some(Memory) => MemoryScore(data.totalPairs, data.correctPairs, data.timeInSeconds)
    case Some(Association) => AssociationScore(data.totalTerms, data.correctAssociations, data.timeInSeconds)
    case Some(Quiz) => QuizScore(data.totalQuestions, data.correctAnswers, data.timeInSeconds)
    case Some(WordSearch) => WordSearchScore(data.totalWords, data.wordsFound, data.timeInSeconds)
  }

  /** Each known tag is scored by its own formula on its own fields. */
  lemma {:induction false} CalculateScoreDelegates(data: ScoreData)
    ensures CalculateScore("memory", data) == MemoryScore(data.totalPairs, data.correctPairs, data.timeInSeconds)
    ensures CalculateScore("association", data) == AssociationScore(data.totalTerms, data.correctAssociations, data.timeInSeconds)
    ensures CalculateScore("quiz", data) == QuizScore(data.totalQuestions, data.correctAnswers, data.timeInSeconds)
    ensures CalculateScore("word-search", data) == WordSearchScore(data.totalWords, data.wordsFound, data.timeInSeconds)
  {
    ParseTypeName(Memory);
    ParseTypeName(Association);
    ParseTypeName(Quiz);
    ParseTypeName(WordSearch);
  }
}
