/**
 * The point rule for one recorded answer. The streak the source reads from the
 * session (key `current_streak`, default 0) is a parameter here.
 */
module Scoring {

  const BasePoints: int := 10
  const StreakBonus: int := 5
  const WrongPenalty: int := -3

  /** `calculate_points(correct)` with `streak` as the value read for the bonus. */
  function CalculatePoints(correct: bool, streak: int): (p: int)
    ensures !correct ==> p == WrongPenalty
    ensures correct ==> p - BasePoints == streak * StreakBonus
    ensures correct && streak >= 0 ==> p >= BasePoints && p > WrongPenalty
  {
    if correct then BasePoints + streak * StreakBonus else WrongPenalty
  }

  /** Correct-answer points rise strictly with the streak. */
  lemma PointsRiseWithStreak(s1: int, s2: int)
    requires s1 < s2
    ensures CalculatePoints(true, s1) < CalculatePoints(true, s2)
  {
  }

  /** The worked example of the points help text: a correct answer on a 3-streak is worth 25. */
  lemma ThreeStreakScoresTwentyFive()
    ensures CalculatePoints(true, 3) == 25
  {
  }

  /** A wrong answer costs the same whatever the streak. */
  lemma PenaltyIgnoresStreak(s1: int, s2: int)
    ensures CalculatePoints(false, s1) == CalculatePoints(false, s2) == -3
  {
  }
}
