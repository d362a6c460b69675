/** ObstacleManager: the spawn countdown, the random interval and type, and the score-driven
    shortening of the minimum interval. */
module Spawning {
  import opened Wrappers
  import opened RealOps
  import opened Obstacles

  const InitialMinSpawnTime: real := 45.0
  const MaxSpawnTime: real := 90.0
  /** The minimum interval is never lowered below this. */
  const MinSpawnFloor: real := 35.0
  /** Above this score every spawn recomputes the minimum interval. */
  const HardeningScore: real := 500.0
  /** Where new obstacles appear: at the right edge, on the standing line. */
  const SpawnX: real := 1024.0
  const SpawnY: real := 400.0
  /** A repeated type is drawn again while a draw falls below this. */
  const RepeatRedraw: real := 0.7

  /** The type for a uniform draw in [0, 1): small cactus below 0.4, large cactus below 0.7,
      bird above. The three ranges tile [0, 1), so the types have weights 0.4, 0.3 and 0.3. */
  function Bucket(rand: real): (kind: ObstacleType)
    ensures kind == SmallCactus <==> rand < 0.4
    ensures kind == LargeCactus <==> 0.4 <= rand < 0.7
    ensures kind == Bird <==> 0.7 <= rand
  {
    if rand < 0.4 then SmallCactus else if rand < 0.7 then LargeCactus else Bird
  }

  /** The do-while of spawnObstacle, over a finite supply `redraws` of the extra random
      draws its condition consumes. The body recomputes the type from the single draw
      `rand`, so the loop repeats only while that type equals `last` and a redraw falls
      below 0.7, and the type it ends with is always Bucket(rand): `last` never changes it.
      `passes` is how many times the body ran again; if the supply runs out the loop stops. */
  method ChooseType(rand: real, last: Option<ObstacleType>, redraws: seq<real>)
    returns (kind: ObstacleType, passes: nat)
    ensures kind == Bucket(rand)
    ensures passes <= |redraws|
    ensures forall j :: 0 <= j < passes ==> redraws[j] < RepeatRedraw
    ensures last != Some(kind) ==> passes == 0
    ensures last == Some(kind) ==> passes == |redraws| || redraws[passes] >= RepeatRedraw
  {
    kind := Bucket(rand);
    passes := 0;
    while last == Some(kind) && passes < |redraws| && redraws[passes] < RepeatRedraw
      invariant kind == Bucket(rand)
      invariant passes <= |redraws|
      invariant forall j :: 0 <= j < passes ==> redraws[j] < RepeatRedraw
      invariant passes > 0 ==> last == Some(kind)
      decreases |redraws| - passes
    {
      kind := Bucket(rand);
      passes := passes + 1;
    }
  }

  /** Score over which the minimum interval is lowered by one frame. */
  const HardeningRate: real := 500.0

  /** The minimum interval for a score above 500: 45 - score/500 until it reaches 35 at a
      score of 5000, and 35 from there on. A score above 500 already takes a frame off. */
  function LoweredMinSpawnTime(score: real): (m: real)
    requires score > HardeningScore
    ensures MinSpawnFloor <= m < InitialMinSpawnTime - 1.0
    ensures score <= 5000.0 ==> m == InitialMinSpawnTime - score / HardeningRate
    ensures score >= 5000.0 ==> m == MinSpawnFloor
  {
    Max(MinSpawnFloor, InitialMinSpawnTime - score / HardeningRate)
  }

  /** The minimum interval falls as the score rises: a higher score never gives a longer one,
      and below 5000 a strictly higher score gives a strictly shorter one. */
  lemma LoweredMinSpawnTimeFalls(a: real, b: real)
    requires HardeningScore < a <= b
    ensures LoweredMinSpawnTime(b) <= LoweredMinSpawnTime(a)
    ensures a < b <= 5000.0 ==> LoweredMinSpawnTime(b) < LoweredMinSpawnTime(a)
  {
    assert a / HardeningRate <= b / HardeningRate;
  }

  /** The random numbers one spawn uses, in the source's order: the type draw, the redraws
      of the repeat loop, the bird's height (used only for birds) and the next interval. */
  datatype Draws = Draws(kind: real, redraws: seq<real>, birdHeight: real, interval: real)

  predicate Unit(r: real) { 0.0 <= r < 1.0 }

  /** Every draw is a value of Math.random(). */
  predicate ValidDraws(d: Draws)
  {
    Unit(d.kind) && Unit(d.birdHeight) && Unit(d.interval) &&
    forall j :: 0 <= j < |d.redraws| ==> Unit(d.redraws[j])
  }

  /** The fields of an ObstacleManager that change. */
  datatype SpawnerState = SpawnerState(
    spawnTimer: int,
    minSpawnTime: real,
    nextSpawnTime: real,
    lastObstacleType: Option<ObstacleType>)

  function Initial(): SpawnerState
  {
    SpawnerState(0, InitialMinSpawnTime, InitialMinSpawnTime, None)
  }

  /** The countdown has not reached the next spawn; the minimum interval stays in [35, 45]
      and the next interval in [35, 90). */
  predicate Inv(sp: SpawnerState)
  {
    0 <= sp.spawnTimer && (sp.spawnTimer as real) < sp.nextSpawnTime &&
    MinSpawnFloor <= sp.minSpawnTime <= InitialMinSpawnTime &&
    MinSpawnFloor <= sp.nextSpawnTime < MaxSpawnTime
  }

  /** The spawner after an update, and the obstacle it added to the world, if any. */
  datatype SpawnOutcome = SpawnOutcome(spawner: SpawnerState, spawned: Option<ObstacleState>)

  /** One ObstacleManager.update, with the score as it was at the start of the frame. */
  function Step(sp: SpawnerState, running: bool, score: real, d: Draws): (r: SpawnOutcome)
    ensures !running ==> r == SpawnOutcome(sp, None)
    ensures r.spawned.Some? <==> running && ((sp.spawnTimer + 1) as real) >= sp.nextSpawnTime
    ensures r.spawned.None? && running ==> r.spawner == sp.(spawnTimer := sp.spawnTimer + 1)
    ensures r.spawned.Some? ==>
              r.spawned.value == Spawn(Bucket(d.kind), SpawnX, SpawnY, d.birdHeight) &&
              r.spawner.lastObstacleType == Some(Bucket(d.kind)) && r.spawner.spawnTimer == 0 &&
              r.spawner.nextSpawnTime == NextInterval(sp.minSpawnTime, d.interval) &&
              r.spawner.minSpawnTime ==
                (if score > HardeningScore then LoweredMinSpawnTime(score) else sp.minSpawnTime)
  {
    if !running then SpawnOutcome(sp, None)
    else
      var timer := sp.spawnTimer + 1;
      if (timer as real) < sp.nextSpawnTime then SpawnOutcome(sp.(spawnTimer := timer), None)
      else
        var kind := Bucket(d.kind);
        var next := NextInterval(sp.minSpawnTime, d.interval);
        var min := if score > HardeningScore then LoweredMinSpawnTime(score) else sp.minSpawnTime;
        SpawnOutcome(SpawnerState(0, min, next, Some(kind)),
                     Some(Spawn(kind, SpawnX, SpawnY, d.birdHeight)))
  }

  lemma InitialInv()
    ensures Inv(Initial())
  {
  }

  /** Every update keeps the countdown below the next spawn time and the intervals in range;
      a spawn draws the next interval from [min, 90) with the minimum it had before the
      update, and changes the minimum only above 500 points. */
  lemma StepKeepsInv(sp: SpawnerState, running: bool, score: real, d: Draws)
    requires Inv(sp) && ValidDraws(d)
    ensures var r := Step(sp, running, score, d);
            Inv(r.spawner) &&
            (r.spawned.Some? ==> sp.minSpawnTime <= r.spawner.nextSpawnTime < MaxSpawnTime) &&
            (r.spawner.minSpawnTime != sp.minSpawnTime ==> r.spawned.Some? && score > HardeningScore)
  {
  }

  /** The interval to the next spawn for a draw r: min + r * (max - min). A draw in [0, 1)
      gives an interval in [min, 90). */
  function NextInterval(minTime: real, r: real): (next: real)
    ensures Unit(r) && minTime < MaxSpawnTime ==> minTime <= next < MaxSpawnTime
  {
    var next := minTime + r * (MaxSpawnTime - minTime);
    if Unit(r) && minTime < MaxSpawnTime then DrawInRange(r, minTime, MaxSpawnTime); next else next
  }

  /** lo + r * (hi - lo) lies in [lo, hi) for a draw r in [0, 1). */
  lemma DrawInRange(r: real, lo: real, hi: real)
    requires 0.0 <= r < 1.0 && lo < hi
    ensures lo <= lo + r * (hi - lo) < hi
  {
    var w := hi - lo;
    MulBelow(r, w);
    calc {
      lo + r * (hi - lo);
      ==
      lo + r * w;
      <
      lo + w;
      ==
      hi;
    }
  }

  lemma MulBelow(r: real, w: real)
    requires 0.0 <= r < 1.0 && 0.0 < w
    ensures 0.0 <= r * w < w
  {
  }

  /** Within one game the score only grows, so a recomputed minimum is never above the one the
      interval was drawn from: an update from a spawner whose next spawn time is at least its
      minimum keeps it so. */
  lemma NextSpawnAboveMinimumWithinGame(sp: SpawnerState, running: bool, score: real, d: Draws)
    requires Inv(sp) && ValidDraws(d) && sp.minSpawnTime <= sp.nextSpawnTime
    requires score > HardeningScore ==> LoweredMinSpawnTime(score) <= sp.minSpawnTime
    ensures var r := Step(sp, running, score, d);
            r.spawner.minSpawnTime <= r.spawner.nextSpawnTime
  {
  }

  /** The next spawn time can fall below the minimum: a restart keeps the spawner, so a
      minimum of 35 left from a long game meets a score of 600 in the next one, and an
      interval drawn from [35, 90) is followed by a minimum raised to 43.8. */
  lemma NextSpawnBelowMinimum()
    ensures var sp := SpawnerState(39, MinSpawnFloor, 40.0, None);
            var r := Step(sp, true, 600.0, Draws(0.0, [], 0.0, 0.0));
            Inv(sp) && r.spawner.nextSpawnTime < r.spawner.minSpawnTime
  {
  }
}
