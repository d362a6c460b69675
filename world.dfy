/** The game world as one value: the running flag, the key state and the gameplay entities,
    with one frame's update pass and the restart protocol. The entities list of the game is
    replaced by a field per singleton entity, in registration order (ground, player, obstacle
    manager, score manager), followed by the obstacles in the order they were added. */
module World {
  import opened Wrappers
  import opened Input
  import opened Geometry
  import PlayerMotion
  import GroundScroll
  import opened Obstacles
  import Spawning
  import Scoring

  datatype WorldState = WorldState(
    running: bool,
    keys: KeyState,
    player: PlayerMotion.PlayerState,
    ground: GroundScroll.GroundState,
    spawner: Spawning.SpawnerState,
    scores: Scoring.ScoreState,
    obstacles: seq<ObstacleState>)

  /** `flags[k]` is the running flag obstacle `k` of a pass sees: the first is the flag the pass
      starts with, and each next one is the flag the update of the obstacle before it leaves. */
  predicate PassFlags(obs: seq<ObstacleState>, flags: seq<bool>, running: bool, groundSpeed: real,
                      player: Box, playerInvincible: bool, wave: real -> real)
  {
    |flags| == |obs| + 1 && flags[0] == running &&
    forall k :: 0 <= k < |obs| ==>
      flags[k + 1] == Obstacles.Step(obs[k], flags[k], groundSpeed, player, playerInvincible, wave).running
  }

  /** Obstacle by obstacle: the pass gives each obstacle its own update with the flag it sees,
      and ends with the flag the last one leaves. */
  lemma {:induction false} UpdateObstaclesAt(obs: seq<ObstacleState>, flags: seq<bool>, running: bool,
                                             groundSpeed: real, player: Box, playerInvincible: bool,
                                             wave: real -> real)
    requires PassFlags(obs, flags, running, groundSpeed, player, playerInvincible, wave)
    ensures var r := UpdateObstacles(obs, running, groundSpeed, player, playerInvincible, wave);
            r.running == flags[|obs|] &&
            forall k :: 0 <= k < |obs| ==>
              r.obstacles[k] == Obstacles.Step(obs[k], flags[k], groundSpeed, player, playerInvincible, wave).obstacle
    decreases |obs|
  {
    if obs != [] {
      var n := |obs| - 1;
      var front := obs[..n];
      assert PassFlags(front, flags[..n + 1], running, groundSpeed, player, playerInvincible, wave);
      UpdateObstaclesAt(front, flags[..n + 1], running, groundSpeed, player, playerInvincible, wave);
    }
  }

  /** The world the bootstrap builds: every entity new, no key pressed, the game running. */
  function Initial(storedHighScore: int): WorldState
  {
    WorldState(true, NoKeys, PlayerMotion.Initial(), GroundScroll.Initial(), Spawning.Initial(),
               Scoring.Initial(storedHighScore), [])
  }

  /** Every entity within its own invariant. */
  predicate Inv(w: WorldState)
  {
    PlayerMotion.Inv(w.player) && GroundScroll.Inv(w.ground) && Spawning.Inv(w.spawner) &&
    Scoring.Inv(w.scores) && AllInv(w.obstacles)
  }

  predicate AllInv(obs: seq<ObstacleState>)
  {
    forall i :: 0 <= i < |obs| ==> Obstacles.Inv(obs[i])
  }

  /** The obstacles after their updates, and the running flag after the last of them. */
  datatype ObstaclesOutcome = ObstaclesOutcome(obstacles: seq<ObstacleState>, running: bool)

  /** The obstacles updated one after another, left to right. Each sees the running flag the
      previous one left: once one of them ends the game, the ones after it do not move. */
  function UpdateObstacles(obs: seq<ObstacleState>, running: bool, groundSpeed: real, player: Box,
                           playerInvincible: bool, wave: real -> real): (r: ObstaclesOutcome)
    ensures |r.obstacles| == |obs|
    ensures r.running ==> running
    ensures !running ==> r == ObstaclesOutcome(obs, false)
    decreases |obs|
  {
    if obs == [] then ObstaclesOutcome([], running)
    else
      var init := UpdateObstacles(obs[..|obs| - 1], running, groundSpeed, player, playerInvincible, wave);
      var last := Obstacles.Step(obs[|obs| - 1], init.running, groundSpeed, player, playerInvincible, wave);
      ObstaclesOutcome(init.obstacles + [last.obstacle], last.running)
  }

  /** The pass over the first i + 1 obstacles is the pass over the first i followed by the
      update of obstacle i with the flag that pass left. */
  lemma UpdateObstaclesExtend(obs: seq<ObstacleState>, i: nat, running: bool, groundSpeed: real,
                              player: Box, playerInvincible: bool, wave: real -> real)
    requires i < |obs|
    ensures var r := UpdateObstacles(obs[..i], running, groundSpeed, player, playerInvincible, wave);
            var last := Obstacles.Step(obs[i], r.running, groundSpeed, player, playerInvincible, wave);
            UpdateObstacles(obs[..i + 1], running, groundSpeed, player, playerInvincible, wave) ==
              ObstaclesOutcome(r.obstacles + [last.obstacle], last.running)
  {
    assert obs[..i + 1][..i] == obs[..i];
  }

  /** One update pass, in registration order: the ground (with the score of the previous frame),
      the player, the obstacle manager (which may add an obstacle, not updated before the next
      frame), the score manager, then the obstacles that were there at the start of the frame,
      which see this frame's ground speed and player. */
  function Frame(w: WorldState, d: Spawning.Draws, wave: real -> real): (v: WorldState)
    ensures !w.running ==> v == w
    ensures v.running ==> w.running
    ensures v.keys == w.keys
  {
    var g := GroundScroll.Step(w.ground, w.running, w.scores.score);
    var p := PlayerMotion.Step(w.player, w.running, w.keys);
    var sp := Spawning.Step(w.spawner, w.running, w.scores.score, d);
    var added := if sp.spawned.Some? then [sp.spawned.value] else [];
    var sc := Scoring.Step(w.scores, w.running);
    var ob := UpdateObstacles(w.obstacles, w.running, g.speed, PlayerMotion.BoxOf(p), p.invincible, wave);
    WorldState(ob.running, w.keys, p, g, sp.spawner, sc, ob.obstacles + added)
  }

  /** ScoreManager.resetGame: the game runs again from score 0 at the base speed, every obstacle
      is removed and the player is invincible with a fresh counter. The ground's offset, the
      player's position and motion, the high score, the milestone counter and the spawner are
      kept as they are. */
  function Reset(w: WorldState): (v: WorldState)
    ensures v.running && v.scores.score == 0.0 && v.ground.speed == GroundScroll.BaseSpeed
    ensures v.obstacles == []
    ensures v.player.invincible && v.player.invincibleTimer == 0
    ensures v.scores.highScore == w.scores.highScore && v.scores.lastMilestone == w.scores.lastMilestone
    ensures v.spawner == w.spawner && v.keys == w.keys && v.ground.x == w.ground.x
    ensures v.player == w.player.(invincible := true, invincibleTimer := 0)
  {
    w.(running := true,
       scores := w.scores.(score := 0.0),
       ground := w.ground.(speed := GroundScroll.BaseSpeed),
       obstacles := [],
       player := w.player.(invincible := true, invincibleTimer := 0))
  }

  /** The restart check of the score manager's draw: the world is reset exactly when the game
      is over and the r key is held; otherwise the draw pass changes nothing. */
  function Restart(w: WorldState): (v: WorldState)
    ensures !w.running && w.keys.r ==> v == Reset(w)
    ensures !w.running && w.keys.r ==> v.running && v.obstacles == [] && v.scores.score == 0.0
    ensures w.running || !w.keys.r ==> v == w
  {
    if !w.running && w.keys.r then Reset(w) else w
  }

  lemma InitialInv(storedHighScore: int)
    requires 0 <= storedHighScore
    ensures Inv(Initial(storedHighScore))
  {
    PlayerMotion.InitialInv();
    GroundScroll.InitialInv();
    Spawning.InitialInv();
  }

  lemma {:induction false} UpdateObstaclesKeepInv(obs: seq<ObstacleState>, running: bool,
                                                  groundSpeed: real, player: Box,
                                                  playerInvincible: bool, wave: real -> real)
    requires AllInv(obs)
    ensures AllInv(UpdateObstacles(obs, running, groundSpeed, player, playerInvincible, wave).obstacles)
    decreases |obs|
  {
    if obs != [] {
      var front := obs[..|obs| - 1];
      UpdateObstaclesKeepInv(front, running, groundSpeed, player, playerInvincible, wave);
      var init := UpdateObstacles(front, running, groundSpeed, player, playerInvincible, wave);
      var last := Obstacles.Step(obs[|obs| - 1], init.running, groundSpeed, player, playerInvincible, wave);
      assert Obstacles.Inv(last.obstacle);
      var r := UpdateObstacles(obs, running, groundSpeed, player, playerInvincible, wave);
      assert r.obstacles == init.obstacles + [last.obstacle];
      forall i | 0 <= i < |r.obstacles|
        ensures Obstacles.Inv(r.obstacles[i])
      {
        if i < |init.obstacles| {
          assert r.obstacles[i] == init.obstacles[i];
        } else {
          assert r.obstacles[i] == last.obstacle;
        }
      }
    }
  }

  /** A pass keeps every obstacle's type and the order of the obstacles. */
  lemma {:induction false} UpdateObstaclesKeepKinds(obs: seq<ObstacleState>, running: bool,
                                                    groundSpeed: real, player: Box,
                                                    playerInvincible: bool, wave: real -> real)
    ensures var r := UpdateObstacles(obs, running, groundSpeed, player, playerInvincible, wave);
            forall i :: 0 <= i < |obs| ==> r.obstacles[i].kind == obs[i].kind
    decreases |obs|
  {
    if obs != [] {
      var front := obs[..|obs| - 1];
      UpdateObstaclesKeepKinds(front, running, groundSpeed, player, playerInvincible, wave);
      var init := UpdateObstacles(front, running, groundSpeed, player, playerInvincible, wave);
      var r := UpdateObstacles(obs, running, groundSpeed, player, playerInvincible, wave);
      forall i | 0 <= i < |obs|
        ensures r.obstacles[i].kind == obs[i].kind
      {
        if i < |front| {
          assert r.obstacles[i] == init.obstacles[i];
          assert obs[i] == front[i];
        }
      }
    }
  }

  /** A frame keeps every entity within its invariant, whatever the random draws. */
  lemma FrameKeepsInv(w: WorldState, d: Spawning.Draws, wave: real -> real)
    requires Inv(w) && Spawning.ValidDraws(d)
    ensures Inv(Frame(w, d, wave))
  {
    PlayerMotion.StepKeepsInv(w.player, w.running, w.keys);
    GroundScroll.StepKeepsInv(w.ground, w.running, w.scores.score);
    Spawning.StepKeepsInv(w.spawner, w.running, w.scores.score, d);
    Scoring.StepKeepsInv(w.scores, w.running);
    var g := GroundScroll.Step(w.ground, w.running, w.scores.score);
    var p := PlayerMotion.Step(w.player, w.running, w.keys);
    UpdateObstaclesKeepInv(w.obstacles, w.running, g.speed, PlayerMotion.BoxOf(p), p.invincible, wave);
    var ob := UpdateObstacles(w.obstacles, w.running, g.speed, PlayerMotion.BoxOf(p), p.invincible, wave);
    var sp := Spawning.Step(w.spawner, w.running, w.scores.score, d);
    var added := if sp.spawned.Some? then [sp.spawned.value] else [];
    var all := Frame(w, d, wave).obstacles;
    assert all == ob.obstacles + added;
    forall i | 0 <= i < |all|
      ensures Obstacles.Inv(all[i])
    {
      if i < |ob.obstacles| {
        assert all[i] == ob.obstacles[i];
      } else {
        assert all[i] == added[0];
      }
    }
  }

  /** A restart keeps every entity within its invariant. */
  lemma RestartKeepsInv(w: WorldState)
    requires Inv(w)
    ensures Inv(Restart(w))
  {
  }

  /** Whether obstacle `o`, updated while the game runs, ends it. */
  predicate Hits(o: ObstacleState, groundSpeed: real, player: Box, playerInvincible: bool,
                 wave: real -> real)
  {
    !Obstacles.Step(o, true, groundSpeed, player, playerInvincible, wave).running
  }

  /** A running pass over the obstacles ends the game exactly when one of them hits; it stops at
      the first that does: the ones before it have their running update, the ones after it are
      left as they were. */
  lemma {:induction false} FirstHitEndsGame(obs: seq<ObstacleState>, groundSpeed: real, player: Box,
                                            playerInvincible: bool, wave: real -> real, k: nat)
    requires k <= |obs|
    requires forall i :: 0 <= i < k ==> !Hits(obs[i], groundSpeed, player, playerInvincible, wave)
    requires k < |obs| ==> Hits(obs[k], groundSpeed, player, playerInvincible, wave)
    ensures var r := UpdateObstacles(obs, true, groundSpeed, player, playerInvincible, wave);
            (r.running <==> k == |obs|) &&
            (forall i :: 0 <= i < k ==>
               r.obstacles[i] == Obstacles.Step(obs[i], true, groundSpeed, player, playerInvincible, wave).obstacle) &&
            (k < |obs| ==>
               r.obstacles[k] == Obstacles.Step(obs[k], true, groundSpeed, player, playerInvincible, wave).obstacle &&
               r.obstacles[k + 1..] == obs[k + 1..])
    decreases |obs|, 1
  {
    if obs != [] {
      var n := |obs| - 1;
      if k + 1 < |obs| {
        HitBeforeLast(obs, groundSpeed, player, playerInvincible, wave, k);
      } else {
        FirstHitEndsGame(obs[..n], groundSpeed, player, playerInvincible, wave, n);
      }
    }
  }

  /** The case of FirstHitEndsGame where the hit comes before the last obstacle: the pass over
      the others has already stopped, so the last one is left as it was. */
  lemma {:induction false} HitBeforeLast(obs: seq<ObstacleState>, groundSpeed: real, player: Box,
                                         playerInvincible: bool, wave: real -> real, k: nat)
    requires k + 1 < |obs|
    requires forall i :: 0 <= i < k ==> !Hits(obs[i], groundSpeed, player, playerInvincible, wave)
    requires Hits(obs[k], groundSpeed, player, playerInvincible, wave)
    ensures var r := UpdateObstacles(obs, true, groundSpeed, player, playerInvincible, wave);
            !r.running &&
            (forall i :: 0 <= i < k ==>
               r.obstacles[i] == Obstacles.Step(obs[i], true, groundSpeed, player, playerInvincible, wave).obstacle) &&
            r.obstacles[k] == Obstacles.Step(obs[k], true, groundSpeed, player, playerInvincible, wave).obstacle &&
            r.obstacles[k + 1..] == obs[k + 1..]
    decreases |obs|, 0
  {
    var n := |obs| - 1;
    var front := obs[..n];
    var last := obs[n];
    FirstHitEndsGame(front, groundSpeed, player, playerInvincible, wave, k);
    var init := UpdateObstacles(front, true, groundSpeed, player, playerInvincible, wave);
    var r := UpdateObstacles(obs, true, groundSpeed, player, playerInvincible, wave);
    assert r.obstacles == init.obstacles + [last];
    assert init.obstacles[k + 1..] == front[k + 1..];
    assert r.obstacles[k + 1..] == init.obstacles[k + 1..] + [last];
    assert obs[k + 1..] == front[k + 1..] + [last];
  }

  /** While the player is invincible after its update, no obstacle can end the game. */
  lemma {:induction false} InvinciblePlayerSurvives(obs: seq<ObstacleState>, groundSpeed: real,
                                                    player: Box, wave: real -> real)
    ensures UpdateObstacles(obs, true, groundSpeed, player, true, wave).running
    decreases |obs|
  {
    if obs != [] {
      InvinciblePlayerSurvives(obs[..|obs| - 1], groundSpeed, player, wave);
    }
  }

  /** A running frame whose player is invincible with its counter below 60 keeps the game
      running: the first 60 frames after a restart cannot end it. */
  lemma InvincibleFrameKeepsRunning(w: WorldState, d: Spawning.Draws, wave: real -> real)
    requires w.running && w.player.invincible && 0 <= w.player.invincibleTimer < PlayerMotion.InvincibleFrames
    ensures Frame(w, d, wave).running
  {
    var g := GroundScroll.Step(w.ground, w.running, w.scores.score);
    var p := PlayerMotion.Step(w.player, w.running, w.keys);
    assert p.invincible;
    InvinciblePlayerSurvives(w.obstacles, g.speed, PlayerMotion.BoxOf(p), wave);
  }

  /** A running frame adds at most one obstacle, at the end and at the spawn point, of the type
      the draw's bucket names; the obstacles already there keep their number and order of types. */
  lemma {:induction false} FrameSpawn(w: WorldState, d: Spawning.Draws, wave: real -> real)
    requires w.running
    ensures var v := Frame(w, d, wave);
            var spawned := ((w.spawner.spawnTimer + 1) as real) >= w.spawner.nextSpawnTime;
            |v.obstacles| == |w.obstacles| + (if spawned then 1 else 0) &&
            (forall i :: 0 <= i < |w.obstacles| ==> v.obstacles[i].kind == w.obstacles[i].kind) &&
            (spawned ==> v.obstacles[|w.obstacles|].kind == Spawning.Bucket(d.kind) &&
                         v.obstacles[|w.obstacles|].x == Spawning.SpawnX &&
                         v.spawner.lastObstacleType == Some(Spawning.Bucket(d.kind)))
  {
    var g := GroundScroll.Step(w.ground, w.running, w.scores.score);
    var p := PlayerMotion.Step(w.player, w.running, w.keys);
    UpdateObstaclesKeepKinds(w.obstacles, w.running, g.speed, PlayerMotion.BoxOf(p), p.invincible, wave);
  }
}
