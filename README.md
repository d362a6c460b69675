# Dino runner: the per-frame gameplay rules

A model of the gameplay core of `main.js`, a side-scrolling runner on an HTML canvas.
The player jumps over cacti and birds, or ducks under birds. The ground speeds up with
the score. A collision ends the game, and the R key restarts it.

The model has two layers.

- **Value modules.** Each gameplay entity has one module holding a datatype of the
  fields that change, a `Step` function for one `update()` call, an invariant and lemmas:
  - `PlayerMotion`: `Player.update`.
  - `GroundScroll`: `Ground.update`.
  - `Obstacles`: the `Obstacle` constructor and `update`.
  - `Geometry`: `checkCollision`.
  - `Spawning`: `ObstacleManager.update` and `spawnObstacle`.
  - `Scoring`: `ScoreManager.update`.
  - `World`: the whole game as one record, one frame of updates, `resetGame` and the
    restart check.
- **Classes (module `Game`).** Each entity is a class with the source's changing fields. Its
  methods update those fields in place, as `main.js` does. Each method is proved to
  compute the `Step` function of its value module.

The world record replaces the `entities.find(e => e instanceof …)` lookups with one
typed field per entity. Its obstacle list is in the order obstacles were added.

A frame runs the entities in registration order (`main.js:21-25`):
1. the ground, which sees the score of the previous frame;
2. the player;
3. the obstacle manager, which may add an obstacle at the end of the list;
4. the score manager;
5. the obstacles that were present when the frame began. They see this frame's ground
   speed and player.

The draw pass then runs the restart check.

Every `Math.random()` call is an input in [0, 1), gathered in a `Spawning.Draws` record
in the source's order:
- the type draw;
- the draws the repeat loop consumes;
- the bird's height;
- the next interval.

The bird's vertical bob `Math.sin(x / 30) * 2` is a parameter `wave: real -> real`.
Numbers are exact reals.

Where the code and its comments disagree, the model follows the code.
- **Ground speed cap.** The speed is `10 + min(score / 200, 20)`. It is capped at three
  times the base speed. The comment at `main.js:137` says "up to 2x".
- **Obstacle type.** `spawnObstacle` draws `rand` once, before its `do … while`. Every
  pass of the loop therefore computes the same type. The "avoid repeats" loop only
  consumes extra random draws. The chosen type is always the bucket of `rand`, whatever
  the last type was (`Spawning.ChooseType`).

## Model

| member | source | states |
|---|---|---|
| Geometry.CheckCollision | main.js:243-252 | A collision holds exactly when the two boxes, each shrunk by the 5-unit buffer on every side, overlap strictly on both axes |
| Geometry.CollisionSymmetric | main.js:243-252 | The test gives the same answer with the two boxes swapped |
| Geometry.CollisionIffDeepOverlap | main.js:243-252 | For boxes wider and taller than 10, a collision is exactly a raw overlap of more than 10 on both axes, so a graze of at most 10 never collides |
| Geometry.NarrowBoxGrazeCollides | main.js:243-252 | Without that size condition the graze rule fails: a 5-wide box collides with a box it overlaps by only 5 |
| GroundScroll.Speed | main.js:137-139 | For a non-negative score the speed is in [10, 30]. It is 10 + score/200 up to score 4000 and 30 from there on |
| GroundScroll.SpeedMonotone | main.js:138 | A higher score never gives a lower speed |
| GroundScroll.SpeedSamples | main.js:138 | The speed is 10 at score 0, 12 at 400 and 30 at 10000 |
| GroundScroll.Step | main.js:131-144 | A frozen game leaves the ground alone. A running update sets the speed from the score and moves the offset left by exactly that speed, putting it back to 0 once it reaches -1024 |
| GroundScroll.InitialInv | main.js:111-115 | A new ground has its speed in [10, 30] and its offset in (-1024, 0] |
| GroundScroll.StepKeepsInv | main.js:131-144 | With a non-negative score every update keeps the offset in (-1024, 0] and the speed in [10, 30] |
| Game.Ground.constructor | main.js:111-115 | A new ground has the base speed and offset 0 |
| Game.Ground.Update | main.js:131-144 | The fields become GroundScroll.Step of the old fields |
| PlayerMotion.Step | main.js:53-91 | A frozen game leaves the player alone. A running update never leaves it both ducking and jumping. A ducking player has height 25 and y 425, any other player has height 50 and y at most 400 |
| PlayerMotion.InitialInv | main.js:32-51 | A new player satisfies the invariant |
| PlayerMotion.StepKeepsInv | main.js:53-91 | Every update keeps the invariant: the ducking shape, y at most 400 otherwise, and the invincibility counter in 0..60 and 0 when not invincible |
| PlayerMotion.JumpImpulse | main.js:65-82 | In a running update the impulse fires exactly when a jump key is held, no jump is under way and the clamped y is at least 400. It then sets velocity -24 on the ground line. Otherwise the velocity is what gravity and the clamp left |
| PlayerMotion.NoImpulseWhileAirborne | main.js:65-82 | While a jump is under way and the player does not reach the ground line, an update only adds gravity: no second impulse, no ducking |
| PlayerMotion.InvincibilityWindow | main.js:56-63 | Invincibility with the counter at t lasts through the updates that take the counter to 60, whatever the keys. The next update clears it and resets the counter to 0; after a restart that is the 61st update |
| PlayerMotion.AirborneArc | main.js:65-74 | Up to 30 updates after an impulse, one more update keeps the player at or above the ground line on the arc 0.75 k (k - 31) |
| PlayerMotion.AirborneStep | main.js:65-90 | An update of an airborne player k ≤ 30 updates into a jump gives the player k + 1 updates in, and fires no impulse |
| PlayerMotion.LandingRejumps | main.js:69-82 | With a jump key held, the 32nd update after an impulse lands the player and fires the next impulse |
| PlayerMotion.ImpulsesInFlight | main.js:65-90 | Holding a jump key for m updates from k updates into a jump fires (k + m) / 32 impulses |
| PlayerMotion.HeldJumpImpulses | main.js:65-90 | Holding a jump key from a new player fires exactly one impulse in every 32 updates |
| Game.Player.constructor | main.js:32-51 | A new player stands on the ground line at rest, not invincible |
| Game.Player.Update | main.js:53-91 | The fields become PlayerMotion.Step of the old fields |
| Game.Player.TickInvincibility | main.js:56-63 | The counter step of the update, as PlayerMotion.TickInvincibility |
| Game.Player.Fall | main.js:65-74 | Gravity and the ground clamp, as PlayerMotion.Fall |
| Game.Player.Jump | main.js:76-82 | The jump impulse, as PlayerMotion.Jump |
| Game.Player.Duck | main.js:84-90 | Ducking, as PlayerMotion.Duck |
| Obstacles.Width | main.js:181-199 | Widths are 20, 30 and 40: every width is in [20, 40], only the small cactus is 20 wide and only the bird is 40 wide |
| Obstacles.Height | main.js:181-199 | Heights are 40, 60 and 20: every height is in [20, 60], only the bird is 20 high, only the large cactus is 60 high, and only the bird is wider than it is tall |
| Obstacles.Spawn | main.js:173-200 | A new obstacle has the given type and x and speed 10. Its counter is 0 and it is not marked for removal. A cactus keeps the given y. A bird's y is 300 + 100 r for its draw r, which lies in [300, 400) for r in [0, 1) |
| Obstacles.Step | main.js:202-241 | A frozen game changes nothing. A running update moves x left by exactly the ground speed and takes that speed. An obstacle whose right edge passes 0 is marked for removal, cannot end the game, and keeps its y, wing state and counter. Otherwise the game goes on exactly when the player is invincible or the boxes do not collide. A wing counter below 15 stays below 15 |
| Obstacles.Flap | main.js:220-224 | The wing advance leaves type, position, speed and the removal mark alone, flips the wing exactly when the advanced counter reaches 15, and keeps the counter below 15 |
| Obstacles.WingFlips | main.js:218-226 | An on-screen bird flips its wing exactly when its counter was 14, and the counter advances modulo 15. A cactus keeps its wing state, counter and y |
| Obstacles.DriftOnScreen | main.js:211-216 | While the right edge stays on screen, n updates at speed s move the obstacle exactly n s to the left without marking it |
| Obstacles.RemovalUpdate | main.js:211-216 | floor((x + w) / s) + 1 is the first update count after which the right edge is below 0 |
| Obstacles.RemovalTiming | main.js:211-216 | At a constant speed the obstacle is marked for removal by exactly update floor((x + w) / s) + 1, and not before |
| Obstacles.RemovalAtExactMultiple | main.js:211-216 | At speed 12 a small cactus from x = 1024 is marked on update 88, one later than ceil(1044 / 12), because its edge sits exactly at 0 on update 87 |
| Game.Obstacle.constructor | main.js:173-200 | The fields become Obstacles.Spawn of the arguments |
| Game.Obstacle.Update | main.js:202-241 | The fields and the returned running flag become Obstacles.Step of the old fields |
| Spawning.Bucket | main.js:320-327 | The type is the small cactus exactly for a draw below 0.4, the large cactus exactly for a draw in [0.4, 0.7), and the bird exactly for a draw of at least 0.7, so the types have weights 0.4, 0.3 and 0.3 on [0, 1) |
| Spawning.ChooseType | main.js:315-330 | The loop ends with the type Bucket(rand), whatever the last type was. It runs again only while that type repeats the last one and a redraw is below 0.7, and stops at the first redraw that is not |
| Spawning.LoweredMinSpawnTime | main.js:307-311 | Above 500 points the new minimum interval is 45 - score / 500 up to a score of 5000 and 35 from there on, so it always lies in [35, 44) |
| Spawning.LoweredMinSpawnTimeFalls | main.js:307-311 | The minimum interval falls as the score rises: a higher score never gives a longer one, and below 5000 a strictly higher score gives a strictly shorter one |
| Spawning.NextInterval | main.js:305 | A draw in [0, 1) gives a next interval in [min, 90) |
| Spawning.Step | main.js:297-334 | A frozen game changes nothing. A running update spawns exactly when the advanced timer reaches the next spawn time; otherwise it only advances the timer. A spawn adds one obstacle of type Bucket(rand) at x 1024, records that type as the last one and resets the timer. It draws the next spawn time as NextInterval of the old minimum, and above 500 points sets the minimum to LoweredMinSpawnTime(score); otherwise the minimum is kept |
| Spawning.InitialInv | main.js:288-295 | A new manager satisfies the invariant |
| Spawning.StepKeepsInv | main.js:297-313 | Every update keeps the timer below the next spawn time, the minimum in [35, 45] and the next spawn time in [35, 90). A spawn draws the next interval from [old minimum, 90), and the minimum changes only on a spawn above 500 points |
| Spawning.NextSpawnAboveMinimumWithinGame | main.js:300-311 | While the score only grows, a recomputed minimum never exceeds the old one, so a next spawn time at least the minimum stays at least the minimum after any update |
| Spawning.NextSpawnBelowMinimum | main.js:302-311 | After a restart the next spawn time can end below the minimum: the reset keeps a minimum lowered in a longer game, and the first spawn above 500 points raises it after drawing the interval from the lower one |
| Game.ObstacleManager.constructor | main.js:288-295 | A new manager has timer 0, minimum and next spawn time 45 and no last type |
| Game.ObstacleManager.Update | main.js:297-313 | The fields and the spawned obstacle become Spawning.Step of the old fields, so a spawn draws the next spawn time and, above 500 points, lowers the minimum to LoweredMinSpawnTime(score); a spawned obstacle is a new object |
| Game.ObstacleManager.SpawnObstacle | main.js:315-334 | A new obstacle of type Bucket(rand) at the spawn point, with that type recorded as the last one |
| Scoring.CueFires | main.js:415-417 | The milestone cue plays exactly when the new score reaches 100 (m + 1), where m is the recorded milestone |
| Scoring.Step | main.js:410-428 | A frozen game leaves the score manager alone |
| Scoring.RunningStep | main.js:410-428 | A running update adds 0.2 to the score. The high score never decreases and ends at least floor(score). The milestone counter becomes max(old, floor(score / 100)) and grows exactly when the cue plays |
| Scoring.InitialInv | main.js:401-408 | A new score manager with a non-negative stored high score satisfies the invariant |
| Scoring.StepKeepsInv | main.js:410-428 | Every update keeps the score, high score and milestone counter non-negative |
| Scoring.RunScore | main.js:410-428 | After n running updates the score has grown by exactly 0.2 n. The high score and milestone counter have not decreased, and the high score is at least floor(score) |
| Scoring.NoCueBelowLastMilestone | main.js:415-421 | While the score stays below the next hundred after the recorded milestone, no cue plays and the counter is unchanged |
| Game.ScoreManager.constructor | main.js:401-408 | A new score manager has score 0, the stored high score and milestone 0 |
| Game.ScoreManager.Update | main.js:410-428 | The fields become Scoring.Step of the old fields |
| World.UpdateObstacles | main.js:202-241 | The obstacle pass keeps the number of obstacles. It can only stop the game, and on a frozen game it changes nothing |
| World.UpdateObstaclesAt | main.js:202-241 | Given the running flag each obstacle sees, each one gets its own update with that flag, and the pass ends with the flag the last one leaves |
| World.Frame | main.js:21-25 | A frame of a frozen game changes nothing, a frame can only stop the game, and the keys are unchanged |
| World.Reset | main.js:482-503 | After a reset the game runs, the score is 0, the ground speed is 10 and no obstacle remains. The player is invincible with counter 0 and keeps its position. The high score, milestone counter, spawner and ground offset are unchanged |
| World.Restart | main.js:476-478 | The draw pass resets the game exactly when it is over and R is held, giving World.Reset of the world (running, no obstacles, score 0, an invincible player); otherwise it changes nothing |
| World.InitialInv | main.js:15-25 | The world the bootstrap builds satisfies every entity's invariant |
| World.UpdateObstaclesKeepInv | main.js:218-224 | The obstacle pass keeps every wing counter below 15 |
| World.UpdateObstaclesKeepKinds | main.js:202-241 | The obstacle pass keeps the number of obstacles, their order and each one's type |
| World.FrameKeepsInv | main.js:21-25 | With valid random draws a frame keeps every entity's invariant |
| World.RestartKeepsInv | main.js:476-503 | A restart keeps every entity's invariant |
| World.FirstHitEndsGame | main.js:228-240 | A running pass ends the game exactly when some obstacle hits. The obstacles before the first hit get their running update, the one that hits moves, and the ones after it are left as they were |
| World.HitBeforeLast | main.js:228-240 | When the first hit comes before the last obstacle, the pass stops the game, the obstacles up to the hit get their running update and the ones after it are left as they were |
| World.InvinciblePlayerSurvives | main.js:229-231 | No obstacle ends the game while the player is invincible |
| World.InvincibleFrameKeepsRunning | main.js:497-502 | A running frame with an invincible player whose counter is below 60 keeps the game running, so the first 60 frames after a restart cannot end it |
| World.FrameSpawn | main.js:330-333 | A running frame adds at most one obstacle, last in the list, at x 1024, of type Bucket(rand), and records that type. The obstacles already there keep their number, order and types |
| Game.Engine.constructor | main.js:15-25 | The engine starts as World.Initial: every entity new, no key held, the game running |
| Game.Engine.Update | main.js:21-25 | The engine's state becomes World.Frame of its old state |
| Game.Engine.UpdateEntities | main.js:21-25 | Ground, player, obstacle manager and score manager each become their Step of the old fields, in registration order |
| Game.Engine.UpdateObstacles | main.js:202-241 | The first n obstacles and the running flag become World.UpdateObstacles of their old values; the rest are unchanged |
| Game.Engine.ResetGame | main.js:482-503 | The engine's state becomes World.Reset of its old state |
| Game.Engine.Draw | main.js:476-478 | The engine's state becomes World.Restart of its old state |
| Game.Engine.Tick | main.js:476-478 | One update pass then one draw pass: World.Restart of World.Frame of the old state |

## Left out

- Rendering: every `draw` method and the invincibility flash, which reads the wall clock (`main.js:97`). The restart check at `main.js:476` is modelled.
- Audio playback: the jump, hit and milestone sounds are calls into the browser. `Scoring.CueFires` states when the milestone cue would play.
- `localStorage`: the high score is read and written as a string. The model takes the stored high score as an integer parameter and does not write it back.
- The cloud manager and the ground's random details (`main.js:121-128`, `147-154`, `341-398`). They are cosmetic and change no gameplay field.
- The bootstrap's canvas, asset loading and the game engine's own loop, which is not in `main.js`. The engine's order is modelled as registration order, with obstacles last. The engine's sweep that drops entities marked `removeFromWorld` is not modelled, so marked obstacles stay in the list.
- The engine loop is assumed to fix the number of entities before its update pass starts, so an obstacle spawned in a frame is first updated in the next frame. `World.Frame` and `Game.Engine.Update` build this in; the loop itself is not in `main.js`.
- The bird's bob `Math.sin(this.x / 30) * 2` is the parameter `wave`, so nothing is claimed about a bird's y after it moves.
- IEEE-754 rounding: all quantities are exact reals.
- Spawning.ChooseType: the `do … while` runs over a finite list of redraws, and it stops if the list runs out. A real run ends with probability 1 but has no bound.
- The back-reference each entity holds to the game is replaced by parameters: the running flag, the keys and the sibling fields it reads. An obstacle returns the running flag it leaves instead of writing it.
- Game.Engine: the obstacles are held as values of their fields (`Obstacles.ObstacleState`) and are updated with `Obstacles.Step`, which `Game.Obstacle.Update` is proved to compute. The identity of obstacle objects, and any aliasing between them, is not modelled. `Game.Engine.Update` appends the state of the object `Game.ObstacleManager.Update` creates.
- Game.Engine.ResetGame: `main.js` removes obstacles with a `filter` over the entity list, which keeps the other entities in order. The model has one field per entity, so only the obstacle list is cleared.
- Spawning.StepKeepsInv: it does not claim `nextSpawnTime >= minSpawnTime`, because the code does not keep it across a restart: the reset keeps a lowered minimum, which the first spawn above 500 points raises after the interval was drawn (`Spawning.NextSpawnBelowMinimum`). Within one game it holds (`Spawning.NextSpawnAboveMinimumWithinGame`). It states the weaker bound [35, 90) and the draw from the minimum in force before the update.
- Geometry.CollisionIffDeepOverlap: the rule that an overlap of at most 10 never collides is stated only for boxes larger than 10 on both axes, because it fails for narrower ones (`Geometry.NarrowBoxGrazeCollides`). The game's boxes are all at least 20 wide and tall.
- A player that is `removeFromWorld` (`main.js:230`): nothing ever marks the player, so the model does not carry that flag.
