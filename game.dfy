/** The gameplay entities as objects whose update methods change their own fields, and the
    engine that owns them and runs one frame. Each method is proved to compute the matching
    step of the value model (PlayerMotion, GroundScroll, Obstacles, Spawning, Scoring, World).
    The back-reference each entity holds to the game becomes parameters: the running flag,
    the keys and the sibling entities' fields it reads are passed in, and an obstacle returns
    the running flag it leaves instead of writing it. The engine keeps its obstacles as the
    values of their fields and updates them with Obstacles.Step, the function
    Obstacle.Update is proved to compute. */
module Game {
  import opened Wrappers
  import opened RealOps
  import opened Input
  import opened Geometry
  import PlayerMotion
  import GroundScroll
  import opened Obstacles
  import Spawning
  import Scoring
  import World

  class Player {
    var y: real
    var height: real
    var velocityY: real
    var isDucking: bool
    var isJumping: bool
    var invincible: bool
    var invincibleTimer: int

    function State(): PlayerMotion.PlayerState
      reads this
    {
      PlayerMotion.PlayerState(y, height, velocityY, isDucking, isJumping, invincible, invincibleTimer)
    }

    constructor ()
      ensures State() == PlayerMotion.Initial()
    {
      y := PlayerMotion.GroundLine;
      height := PlayerMotion.NormalHeight;
      velocityY := 0.0;
      isDucking, isJumping := false, false;
      invincible, invincibleTimer := false, 0;
    }

    /** Player.update. */
    method Update(running: bool, keys: KeyState)
      modifies this
      ensures State() == PlayerMotion.Step(old(State()), running, keys)
    {
      if !running {
        return;
      }
      TickInvincibility();
      Fall();
      Jump(keys);
      Duck(keys);
    }

    /** The invincibility counter of Player.update. */
    method TickInvincibility()
      modifies this
      ensures State() == PlayerMotion.TickInvincibility(old(State()))
    {
      if invincible {
        invincibleTimer := invincibleTimer + 1;
        if invincibleTimer > PlayerMotion.InvincibleFrames {
          invincible := false;
          invincibleTimer := 0;
        }
      }
    }

    /** Gravity and the ground clamp of Player.update. */
    method Fall()
      modifies this
      ensures State() == PlayerMotion.Fall(old(State()))
    {
      velocityY := velocityY + PlayerMotion.Gravity;
      y := y + velocityY;
      if y > PlayerMotion.GroundLine {
        y := PlayerMotion.GroundLine;
        velocityY := 0.0;
        isJumping := false;
      }
    }

    /** The jump impulse of Player.update. */
    method Jump(keys: KeyState)
      modifies this
      ensures State() == PlayerMotion.Jump(old(State()), keys)
    {
      if keys.JumpPressed() && !isJumping && y >= PlayerMotion.GroundLine {
        velocityY := PlayerMotion.JumpStrength;
        isJumping := true;
      }
    }

    /** Ducking in Player.update. */
    method Duck(keys: KeyState)
      modifies this
      ensures State() == PlayerMotion.Duck(old(State()), keys)
    {
      isDucking := keys.arrowDown && !isJumping;
      height := if isDucking then PlayerMotion.DuckHeight else PlayerMotion.NormalHeight;
      if isDucking {
        y := PlayerMotion.GroundLine + (PlayerMotion.NormalHeight - PlayerMotion.DuckHeight);
      }
    }
  }

  class Ground {
    var speed: real
    var x: real

    function State(): GroundScroll.GroundState
      reads this
    {
      GroundScroll.GroundState(speed, x)
    }

    constructor ()
      ensures State() == GroundScroll.Initial()
    {
      speed := GroundScroll.BaseSpeed;
      x := 0.0;
    }

    /** Ground.update, given the score manager's current score. */
    method Update(running: bool, score: real)
      modifies this
      ensures State() == GroundScroll.Step(old(State()), running, score)
    {
      if !running {
        return;
      }
      speed := GroundScroll.BaseSpeed + Min(score / GroundScroll.ScorePerSpeedUnit, GroundScroll.BaseSpeed + 10.0);
      x := x - speed;
      if x <= -GroundScroll.TileWidth {
        x := 0.0;
      }
    }
  }

  class Obstacle {
    const kind: ObstacleType
    var x: real
    var y: real
    var speed: real
    var frameCount: int
    var wingUp: bool
    var removeFromWorld: bool

    function State(): ObstacleState
      reads this
    {
      ObstacleState(kind, x, y, speed, frameCount, wingUp, removeFromWorld)
    }

    /** The Obstacle constructor; `birdDraw` places a bird's height. */
    constructor (kind: ObstacleType, x: real, y: real, birdDraw: real)
      ensures State() == Spawn(kind, x, y, birdDraw)
    {
      this.kind := kind;
      this.x := x;
      this.y := if kind == Bird then BirdTop + birdDraw * BirdBand else y;
      speed := InitialSpeed;
      frameCount := 0;
      wingUp := kind == Bird;
      removeFromWorld := false;
    }

    /** Obstacle.update, given the ground's speed and the player's box and invincibility;
        `stillRunning` is the game's running flag afterwards. */
    method Update(running: bool, groundSpeed: real, player: Box, playerInvincible: bool,
                  wave: real -> real) returns (stillRunning: bool)
      modifies this
      ensures Outcome(State(), stillRunning) ==
              Obstacles.Step(old(State()), running, groundSpeed, player, playerInvincible, wave)
    {
      stillRunning := running;
      if !running {
        return;
      }
      speed := groundSpeed;
      x := x - speed;
      if x + Width(kind) < 0.0 {
        removeFromWorld := true;
        return;
      }
      if kind == Bird {
        frameCount := frameCount + 1;
        if frameCount >= WingPeriod {
          wingUp := !wingUp;
          frameCount := 0;
        }
        y := y + wave(x);
      }
      if !playerInvincible && CheckCollision(BoxOf(State()), player) {
        stillRunning := false;
      }
    }
  }

  class ObstacleManager {
    var spawnTimer: int
    var minSpawnTime: real
    var nextSpawnTime: real
    var lastObstacleType: Option<ObstacleType>

    function State(): Spawning.SpawnerState
      reads this
    {
      Spawning.SpawnerState(spawnTimer, minSpawnTime, nextSpawnTime, lastObstacleType)
    }

    constructor ()
      ensures State() == Spawning.Initial()
    {
      spawnTimer := 0;
      minSpawnTime := Spawning.InitialMinSpawnTime;
      nextSpawnTime := Spawning.InitialMinSpawnTime;
      lastObstacleType := None;
    }

    /** ObstacleManager.update, given the score manager's current score. The obstacle it adds to
        the world, if any, is returned. */
    method Update(running: bool, score: real, d: Spawning.Draws) returns (spawned: Obstacle?)
      modifies this
      ensures spawned != null ==> fresh(spawned)
      ensures var r := Spawning.Step(old(State()), running, score, d);
              State() == r.spawner && (spawned == null <==> r.spawned.None?) &&
              (spawned != null ==> spawned.State() == r.spawned.value)
    {
      spawned := null;
      if !running {
        return;
      }
      spawnTimer := spawnTimer + 1;
      if spawnTimer as real >= nextSpawnTime {
        spawned := SpawnObstacle(d);
        spawnTimer := 0;
        nextSpawnTime := Spawning.NextInterval(minSpawnTime, d.interval);
        if score > Spawning.HardeningScore {
          minSpawnTime := Spawning.LoweredMinSpawnTime(score);
        }
      }
    }

    /** ObstacleManager.spawnObstacle: a new obstacle of the type the draw's bucket names, at the
        right edge; it becomes the last type spawned. */
    method SpawnObstacle(d: Spawning.Draws) returns (o: Obstacle)
      modifies this`lastObstacleType
      ensures fresh(o) && o.State() == Spawn(Spawning.Bucket(d.kind), Spawning.SpawnX, Spawning.SpawnY, d.birdHeight)
      ensures lastObstacleType == Some(Spawning.Bucket(d.kind))
    {
      var kind, _ := Spawning.ChooseType(d.kind, lastObstacleType, d.redraws);
      lastObstacleType := Some(kind);
      o := new Obstacle(kind, Spawning.SpawnX, Spawning.SpawnY, d.birdHeight);
    }
  }

  class ScoreManager {
    var score: real
    var highScore: int
    var lastMilestone: int

    function State(): Scoring.ScoreState
      reads this
    {
      Scoring.ScoreState(score, highScore, lastMilestone)
    }

    /** A new ScoreManager, with the high score read from storage. */
    constructor (storedHighScore: int)
      ensures State() == Scoring.Initial(storedHighScore)
    {
      score := 0.0;
      highScore := storedHighScore;
      lastMilestone := 0;
    }

    /** ScoreManager.update. */
    method Update(running: bool)
      modifies this
      ensures State() == Scoring.Step(old(State()), running)
    {
      if running {
        score := score + Scoring.ScorePerFrame;
        var currentMilestone := Scoring.Milestone(score);
        if currentMilestone > lastMilestone {
          lastMilestone := currentMilestone;
        }
        if score > highScore as real {
          highScore := score.Floor;
        }
      }
    }
  }

  /** The running game: its flag, the key state and the entities. The obstacles are held as
      the values of their fields, in the order they were added. */
  class Engine {
    var running: bool
    var keys: KeyState
    const player: Player
    const ground: Ground
    const spawner: ObstacleManager
    const scores: ScoreManager
    var obstacles: seq<ObstacleState>

    function State(): World.WorldState
      reads this, player, ground, spawner, scores
    {
      World.WorldState(running, keys, player.State(), ground.State(), spawner.State(),
                       scores.State(), obstacles)
    }

    /** The bootstrap: the entities are created and registered, and the game starts running. */
    constructor (storedHighScore: int)
      ensures State() == World.Initial(storedHighScore)
    {
      running := true;
      keys := NoKeys;
      player := new Player();
      ground := new Ground();
      spawner := new ObstacleManager();
      scores := new ScoreManager(storedHighScore);
      obstacles := [];
    }

    /** One update pass: the entities in registration order, then the obstacles that were there
        when the pass began. */
    method Update(d: Spawning.Draws, wave: real -> real)
      modifies this, player, ground, spawner, scores
      ensures State() == World.Frame(old(State()), d, wave)
    {
      var n := |obstacles|;
      var spawned := UpdateEntities(d);
      ghost var added := if spawned == null then [] else [spawned.State()];
      if spawned != null {
        obstacles := obstacles + [spawned.State()];
      }
      assert obstacles[..n] == old(obstacles) && obstacles[n..] == added;
      UpdateObstacles(n, wave);
    }

    /** The updates of the ground, the player, the obstacle manager and the score manager, in
        registration order; the obstacle the manager spawns, if any, is returned. */
    method UpdateEntities(d: Spawning.Draws) returns (spawned: Obstacle?)
      modifies player, ground, spawner, scores
      ensures ground.State() == GroundScroll.Step(old(ground.State()), running, old(scores.score))
      ensures player.State() == PlayerMotion.Step(old(player.State()), running, keys)
      ensures var r := Spawning.Step(old(spawner.State()), running, old(scores.score), d);
              spawner.State() == r.spawner && (spawned == null <==> r.spawned.None?) &&
              (spawned != null ==> spawned.State() == r.spawned.value)
      ensures scores.State() == Scoring.Step(old(scores.State()), running)
    {
      ground.Update(running, scores.score);
      player.Update(running, keys);
      spawned := spawner.Update(running, scores.score, d);
      scores.Update(running);
    }

    /** The obstacle updates of a pass: the first `n` obstacles, one after another, each seeing
        the running flag the one before it left; the obstacles after them are left alone. */
    method UpdateObstacles(n: nat, wave: real -> real)
      requires n <= |obstacles|
      modifies this`running, this`obstacles
      ensures var r := World.UpdateObstacles(old(obstacles)[..n], old(running), ground.speed,
                                             PlayerMotion.BoxOf(player.State()), player.invincible, wave);
              running == r.running && obstacles == r.obstacles + old(obstacles)[n..]
    {
      var groundSpeed, box, playerInvincible := ground.speed, PlayerMotion.BoxOf(player.State()), player.invincible;
      var updated := [];
      var i := 0;
      while i < n
        invariant i <= n && obstacles == old(obstacles)
        invariant var r := World.UpdateObstacles(obstacles[..i], old(running), groundSpeed, box,
                                                 playerInvincible, wave);
                  running == r.running && updated == r.obstacles
      {
        World.UpdateObstaclesExtend(obstacles, i, old(running), groundSpeed, box, playerInvincible, wave);
        var out := Obstacles.Step(obstacles[i], running, groundSpeed, box, playerInvincible, wave);
        updated := updated + [out.obstacle];
        running := out.running;
        i := i + 1;
      }
      obstacles := updated + obstacles[n..];
    }

    /** ScoreManager.resetGame. */
    method ResetGame()
      modifies this, player, ground, scores
      ensures State() == World.Reset(old(State()))
    {
      scores.score := 0.0;
      running := true;
      ground.speed := GroundScroll.BaseSpeed;
      obstacles := [];
      player.invincible := true;
      player.invincibleTimer := 0;
    }

    /** The restart check of the score manager's draw. */
    method Draw()
      modifies this, player, ground, scores
      ensures State() == World.Restart(old(State()))
    {
      if !running && keys.r {
        ResetGame();
      }
    }

    /** One cycle of the frame driver: the update pass, then the draw pass. */
    method Tick(d: Spawning.Draws, wave: real -> real)
      modifies this, player, ground, spawner, scores
      ensures State() == World.Restart(World.Frame(old(State()), d, wave))
    {
      Update(d, wave);
      Draw();
    }
  }
}
