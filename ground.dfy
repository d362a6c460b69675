/** Ground.update: the score-driven speed and the scroll offset of the two ground tiles. */
module GroundScroll {
  import opened RealOps

  const BaseSpeed: real := 10.0
  /** Width of one ground tile; two are drawn back to back. */
  const TileWidth: real := 1024.0
  /** Score points per unit of extra speed. */
  const ScorePerSpeedUnit: real := 200.0
  /** The extra speed never exceeds this: baseSpeed + 10. */
  const SpeedBonusCap: real := BaseSpeed + 10.0

  /** The speed for a score: the base speed plus score/200, the bonus capped at baseSpeed + 10.
      The cap is reached at score 4000 and makes the top speed three times the base speed. */
  function Speed(score: real): (v: real)
    ensures 0.0 <= score ==> BaseSpeed <= v <= 3.0 * BaseSpeed
    ensures score >= ScorePerSpeedUnit * SpeedBonusCap ==> v == 3.0 * BaseSpeed
    ensures score <= ScorePerSpeedUnit * SpeedBonusCap ==> v == BaseSpeed + score / ScorePerSpeedUnit
  {
    BaseSpeed + Min(score / ScorePerSpeedUnit, SpeedBonusCap)
  }

  /** A higher score never gives a lower speed. */
  lemma SpeedMonotone(a: real, b: real)
    requires a <= b
    ensures Speed(a) <= Speed(b)
  {
  }

  /** Values at a start, at 400 points and far past the cap. */
  lemma SpeedSamples()
    ensures Speed(0.0) == BaseSpeed
    ensures Speed(400.0) == BaseSpeed + 2.0
    ensures Speed(10000.0) == BaseSpeed + (BaseSpeed + 10.0)
  {
  }

  /** The fields of a Ground that gameplay reads or changes. */
  datatype GroundState = GroundState(speed: real, x: real)

  function Initial(): GroundState
  {
    GroundState(BaseSpeed, 0.0)
  }

  /** Speed within [base, 3 x base]; the scroll offset within one tile to the left. */
  predicate Inv(g: GroundState)
  {
    BaseSpeed <= g.speed <= 3.0 * BaseSpeed && -TileWidth < g.x <= 0.0
  }

  /** One Ground.update with the score as it was at the start of the frame. A frozen
      game leaves the ground as it is. A running one sets the speed from the score and
      moves the offset left by exactly that speed, except that an offset reaching a whole
      tile to the left is put back to 0 (not advanced by a tile width). */
  function Step(g: GroundState, running: bool, score: real): (h: GroundState)
    ensures !running ==> h == g
    ensures running ==> h.speed == Speed(score)
    ensures running && g.x - h.speed > -TileWidth ==> h.x == g.x - h.speed
    ensures running && g.x - h.speed <= -TileWidth ==> h.x == 0.0
  {
    if !running then g
    else
      var v := Speed(score);
      var x := g.x - v;
      GroundState(v, if x <= -TileWidth then 0.0 else x)
  }

  lemma InitialInv()
    ensures Inv(Initial())
  {
  }

  /** With a non-negative score every update keeps the offset in (-1024, 0] and the speed in [10, 30]. */
  lemma StepKeepsInv(g: GroundState, running: bool, score: real)
    requires Inv(g) && 0.0 <= score
    ensures Inv(Step(g, running, score))
  {
  }
}
