/** Obstacle: sizes by type, leftward motion at the ground's speed, the bird's wing
    animation, removal off the left edge and the collision that ends the game. */
module Obstacles {
  import opened Geometry

  datatype ObstacleType = SmallCactus | LargeCactus | Bird

  /** The shortest side of any obstacle; the collision buffer is small beside it. */
  const MinSide: real := 20.0

  /** Widths by type: 20, 30 and 40; distinct types have distinct widths. */
  function Width(kind: ObstacleType): (w: real)
    ensures MinSide <= w <= 40.0
    ensures w == MinSide <==> kind == SmallCactus
    ensures w == 40.0 <==> kind == Bird
    ensures kind == LargeCactus ==> w == 30.0
  {
    match kind
    case SmallCactus => 20.0
    case LargeCactus => 30.0
    case Bird => 40.0
  }

  /** Heights by type: 40, 60 and 20; only the bird is wider than it is tall. */
  function Height(kind: ObstacleType): (h: real)
    ensures MinSide <= h <= 60.0
    ensures h == MinSide <==> kind == Bird
    ensures h == 60.0 <==> kind == LargeCactus
    ensures kind == SmallCactus ==> h == 40.0
    ensures Width(kind) > h <==> kind == Bird
  {
    match kind
    case SmallCactus => 40.0
    case LargeCactus => 60.0
    case Bird => 20.0
  }

  /** The speed an obstacle has before its first update. */
  const InitialSpeed: real := 10.0
  /** The wing state of a bird flips once per this many updates. */
  const WingPeriod: int := 15
  /** Birds are placed this high, plus up to BirdBand further down. */
  const BirdTop: real := 300.0
  const BirdBand: real := 100.0

  /** The fields of an Obstacle that change. `wingUp` is meaningful for birds only
      (the source leaves it undefined for cacti; here it is false). */
  datatype ObstacleState = ObstacleState(
    kind: ObstacleType,
    x: real,
    y: real,
    speed: real,
    frameCount: int,
    wingUp: bool,
    removeFromWorld: bool)

  /** The Obstacle constructor; `birdDraw` is the random draw that places a bird. */
  function Spawn(kind: ObstacleType, x: real, y: real, birdDraw: real): (o: ObstacleState)
    ensures o.kind == kind && o.x == x && o.speed == InitialSpeed
    ensures o.frameCount == 0 && !o.removeFromWorld && o.wingUp == (kind == Bird)
    ensures kind != Bird ==> o.y == y
    ensures kind == Bird ==> o.y == BirdTop + birdDraw * BirdBand
    ensures kind == Bird && 0.0 <= birdDraw < 1.0 ==> BirdTop <= o.y < BirdTop + BirdBand
  {
    ObstacleState(kind, x, if kind == Bird then BirdTop + birdDraw * BirdBand else y,
                  InitialSpeed, 0, kind == Bird, false)
  }

  function BoxOf(o: ObstacleState): Box
  {
    Box(o.x, o.y, Width(o.kind), Height(o.kind))
  }

  /** The wing counter stays below the period. */
  predicate Inv(o: ObstacleState)
  {
    0 <= o.frameCount < WingPeriod
  }

  /** The bird's wing counter advances; on reaching the period the wing flips and the count restarts. */
  function Flap(o: ObstacleState): (f: ObstacleState)
    ensures f.kind == o.kind && f.x == o.x && f.y == o.y && f.speed == o.speed
    ensures f.removeFromWorld == o.removeFromWorld
    ensures f.wingUp != o.wingUp <==> o.frameCount + 1 >= WingPeriod
    ensures Inv(o) ==> Inv(f)
  {
    var c := o.frameCount + 1;
    if c >= WingPeriod then o.(wingUp := !o.wingUp, frameCount := 0) else o.(frameCount := c)
  }

  /** The obstacle after an update, and whether the game still runs. */
  datatype Outcome = Outcome(obstacle: ObstacleState, running: bool)

  /** One Obstacle.update, given the ground's current speed, the player's box and
      invincibility, and `wave`, the bird's vertical offset as a function of its new x
      (the source uses a sine of x). */
  function Step(o: ObstacleState, running: bool, groundSpeed: real, player: Box,
                playerInvincible: bool, wave: real -> real): (r: Outcome)
    ensures !running ==> r == Outcome(o, false)
    ensures r.running ==> running
    ensures running ==> r.obstacle.kind == o.kind &&
                        r.obstacle.x == o.x - groundSpeed && r.obstacle.speed == groundSpeed
    ensures running && o.x - groundSpeed + Width(o.kind) < 0.0 ==>
              r.obstacle.removeFromWorld && r.running &&
              r.obstacle.y == o.y && r.obstacle.frameCount == o.frameCount && r.obstacle.wingUp == o.wingUp
    ensures running && o.x - groundSpeed + Width(o.kind) >= 0.0 ==>
              r.obstacle.removeFromWorld == o.removeFromWorld &&
              (r.running <==> playerInvincible || !CheckCollision(BoxOf(r.obstacle), player))
    ensures Inv(o) ==> Inv(r.obstacle)
  {
    if !running then Outcome(o, false)
    else
      var moved := o.(speed := groundSpeed, x := o.x - groundSpeed);
      if moved.x + Width(o.kind) < 0.0 then Outcome(moved.(removeFromWorld := true), true)
      else
        var animated := if o.kind == Bird then var f := Flap(moved); f.(y := f.y + wave(f.x)) else moved;
        Outcome(animated, playerInvincible || !CheckCollision(BoxOf(animated), player))
  }

  /** A running update that keeps the obstacle on screen flips a bird's wing exactly when
      its counter was at 14, the last frame of a period, and leaves a cactus's wing state,
      counter and height alone. */
  lemma WingFlips(o: ObstacleState, groundSpeed: real, player: Box, playerInvincible: bool,
                  wave: real -> real)
    requires Inv(o) && o.x - groundSpeed + Width(o.kind) >= 0.0
    ensures var q := Step(o, true, groundSpeed, player, playerInvincible, wave).obstacle;
            if o.kind == Bird
            then (q.wingUp != o.wingUp <==> o.frameCount == WingPeriod - 1) &&
                 q.frameCount == (o.frameCount + 1) % WingPeriod
            else q.wingUp == o.wingUp && q.frameCount == o.frameCount && q.y == o.y
  {
  }

  /** `n` running updates at a constant ground speed `s` with an invincible player, so that
      no collision ends the game on the way. */
  function Drift(o: ObstacleState, s: real, n: nat, player: Box, wave: real -> real): ObstacleState
    decreases n
  {
    if n == 0 then o else Drift(Step(o, true, s, player, true, wave).obstacle, s, n - 1, player, wave)
  }

  /** While the right edge has stayed on screen, the obstacle has moved exactly n * s to the
      left and is not marked for removal. */
  lemma {:induction false} DriftOnScreen(o: ObstacleState, s: real, n: nat, player: Box,
                                         wave: real -> real)
    requires !o.removeFromWorld && 0.0 <= s
    requires o.x - (n as real) * s + Width(o.kind) >= 0.0
    ensures var q := Drift(o, s, n, player, wave);
            q.kind == o.kind && q.x == o.x - (n as real) * s && !q.removeFromWorld
    decreases n
  {
    if n > 0 {
      var o' := Step(o, true, s, player, true, wave).obstacle;
      var k := (n - 1) as real;
      assert o'.x - k * s + Width(o.kind) == o.x - (n as real) * s + Width(o.kind);
      DriftOnScreen(o', s, n - 1, player, wave);
    }
  }

  /** The number of updates after which an obstacle at x with width w and speed s > 0 is
      marked for removal: the first n with x - n * s + w < 0. */
  function RemovalUpdate(x: real, w: real, s: real): (n: nat)
    requires 0.0 < s && x + w >= 0.0
    ensures x - (n as real) * s + w < 0.0
    ensures n >= 1 && x - ((n - 1) as real) * s + w >= 0.0
  {
    var q := (x + w) / s;
    var f := q.Floor;
    assert q * s == x + w;
    assert 0 <= f;
    FloorTimes(q, s);
    f + 1
  }

  lemma FloorTimes(q: real, s: real)
    requires 0.0 < s && 0.0 <= q
    ensures (q.Floor as real) * s <= q * s < ((q.Floor + 1) as real) * s
  {
    var f := q.Floor as real;
    assert f <= q < f + 1.0;
    assert (q - f) * s >= 0.0;
    assert (f + 1.0 - q) * s > 0.0;
  }

  /** An obstacle spawned at x with a constant ground speed s > 0 is marked for removal by
      exactly update number RemovalUpdate(x, width, s), floor((x + width) / s) + 1, and not
      before. */
  lemma RemovalTiming(o: ObstacleState, s: real, player: Box, wave: real -> real)
    requires !o.removeFromWorld && 0.0 < s && o.x + Width(o.kind) >= 0.0
    ensures var n := RemovalUpdate(o.x, Width(o.kind), s);
            !Drift(o, s, n - 1, player, wave).removeFromWorld &&
            Drift(o, s, n, player, wave).removeFromWorld
  {
    var n := RemovalUpdate(o.x, Width(o.kind), s);
    DriftOnScreen(o, s, n - 1, player, wave);
    var q := Drift(o, s, n - 1, player, wave);
    DriftStep(o, s, n - 1, player, wave);
    var k := (n - 1) as real;
    assert (n as real) * s == k * s + s by {
      assert n as real == k + 1.0;
    }
    assert q.x - s + Width(q.kind) == o.x - (n as real) * s + Width(o.kind);
  }

  lemma {:induction false} DriftStep(o: ObstacleState, s: real, n: nat, player: Box,
                                     wave: real -> real)
    ensures Drift(o, s, n + 1, player, wave) ==
            Step(Drift(o, s, n, player, wave), true, s, player, true, wave).obstacle
    decreases n
  {
    if n > 0 {
      DriftStep(Step(o, true, s, player, true, wave).obstacle, s, n - 1, player, wave);
    }
  }

  /** With ground speed 12 a small cactus spawned at 1024 is marked on update 88, one later
      than ceil((1024 + 20) / 12) = 87: at update 87 its right edge is exactly at 0. */
  lemma RemovalAtExactMultiple()
    ensures RemovalUpdate(1024.0, Width(SmallCactus), 12.0) == 88
  {
  }
}
