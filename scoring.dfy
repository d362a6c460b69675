/** ScoreManager.update: the score accrues while the game runs, the milestone counter and the
    high score follow it as running maxima. */
module Scoring {
  /** Points added per running frame. */
  const ScorePerFrame: real := 0.2
  /** Points per milestone; the cue plays when floor(score / 100) passes the last milestone. */
  const MilestonePoints: real := 100.0

  /** The fields of a ScoreManager. The high score is the stored integer the game starts with;
      reading it from storage is not part of this model. */
  datatype ScoreState = ScoreState(score: real, highScore: int, lastMilestone: int)

  /** A new ScoreManager, given the stored high score. */
  function Initial(storedHighScore: int): ScoreState
  {
    ScoreState(0.0, storedHighScore, 0)
  }

  /** Non-negative score, high score and milestone counter. */
  predicate Inv(s: ScoreState)
  {
    0.0 <= s.score && 0 <= s.highScore && 0 <= s.lastMilestone
  }

  /** The milestone a score has reached. */
  function Milestone(score: real): int
  {
    (score / MilestonePoints).Floor
  }

  /** Whether the milestone cue plays in a running update from `s`: exactly when the new
      score reaches the hundred after the last milestone. */
  predicate CueFires(s: ScoreState): (fires: bool)
    ensures fires <==> s.score + ScorePerFrame >= MilestonePoints * ((s.lastMilestone + 1) as real)
  {
    Milestone(s.score + ScorePerFrame) > s.lastMilestone
  }

  /** One ScoreManager.update. */
  function Step(s: ScoreState, running: bool): (t: ScoreState)
    ensures !running ==> t == s
  {
    if !running then s
    else
      var score := s.score + ScorePerFrame;
      var m := Milestone(score);
      var last := if m > s.lastMilestone then m else s.lastMilestone;
      var high := if score > s.highScore as real then score.Floor else s.highScore;
      ScoreState(score, high, last)
  }

  /** A running update adds 0.2 to the score; the high score never decreases and ends at least
      floor(score); the milestone counter becomes the larger of its old value and the new
      score's milestone, and it grows exactly when the cue plays. */
  lemma RunningStep(s: ScoreState)
    ensures var t := Step(s, true);
            t.score == s.score + ScorePerFrame &&
            s.highScore <= t.highScore && t.score.Floor <= t.highScore &&
            (t.highScore != s.highScore ==> t.highScore == t.score.Floor) &&
            t.lastMilestone == (if Milestone(t.score) > s.lastMilestone then Milestone(t.score) else s.lastMilestone) &&
            (t.lastMilestone > s.lastMilestone <==> CueFires(s))
  {
    var score := s.score + ScorePerFrame;
    if score > s.highScore as real {
      assert score.Floor >= s.highScore;
    } else {
      assert score.Floor <= s.highScore;
    }
  }

  lemma InitialInv(storedHighScore: int)
    requires 0 <= storedHighScore
    ensures Inv(Initial(storedHighScore))
  {
  }

  lemma StepKeepsInv(s: ScoreState, running: bool)
    requires Inv(s)
    ensures Inv(Step(s, running))
  {
  }

  /** `n` running updates. */
  function Run(s: ScoreState, n: nat): ScoreState
    decreases n
  {
    if n == 0 then s else Run(Step(s, true), n - 1)
  }

  /** After n running updates the score has grown by exactly 0.2 n, the high score and the
      milestone counter have not decreased, and the high score is at least floor(score). */
  lemma {:induction false} RunScore(s: ScoreState, n: nat)
    requires n >= 1
    ensures var t := Run(s, n);
            t.score == s.score + ScorePerFrame * (n as real) &&
            s.highScore <= t.highScore && s.lastMilestone <= t.lastMilestone &&
            t.score.Floor <= t.highScore
    decreases n
  {
    RunningStep(s);
    if n > 1 {
      RunScore(Step(s, true), n - 1);
    }
  }

  /** The cue plays at most once per milestone: each time it plays the counter strictly grows,
      so it never plays again for the milestone it reached. In particular, after a restart that
      keeps the counter at m, no cue plays while the score stays below 100 (m + 1). */
  lemma NoCueBelowLastMilestone(s: ScoreState)
    requires 0.0 <= s.score && s.score + ScorePerFrame < MilestonePoints * ((s.lastMilestone + 1) as real)
    ensures !CueFires(s) && Step(s, true).lastMilestone == s.lastMilestone
  {
    var score := s.score + ScorePerFrame;
    assert score / MilestonePoints < (s.lastMilestone + 1) as real;
  }
}
