/** Player.update: gravity, the ground clamp, jumping, ducking and the invincibility window. */
module PlayerMotion {
  import opened Input
  import opened Geometry

  /** The standing height: the player's top edge rests here when not ducking. */
  const GroundLine: real := 400.0
  const PlayerX: real := 100.0
  const PlayerWidth: real := 50.0
  const NormalHeight: real := 50.0
  const DuckHeight: real := 25.0
  const Gravity: real := 1.5
  const JumpStrength: real := -24.0
  /** Invincibility lasts while the frame counter is at most this. */
  const InvincibleFrames: int := 60

  /** The fields of a Player that change; x and width are fixed. */
  datatype PlayerState = PlayerState(
    y: real,
    height: real,
    velocityY: real,
    isDucking: bool,
    isJumping: bool,
    invincible: bool,
    invincibleTimer: int)

  /** A new Player: standing on the ground line, at rest. */
  function Initial(): PlayerState
  {
    PlayerState(GroundLine, NormalHeight, 0.0, false, false, false, 0)
  }

  function BoxOf(p: PlayerState): Box
  {
    Box(PlayerX, p.y, PlayerWidth, p.height)
  }

  /** What every reachable player state satisfies. */
  predicate Inv(p: PlayerState)
  {
    (p.isDucking ==> !p.isJumping && p.height == DuckHeight &&
                     p.y == GroundLine + (NormalHeight - DuckHeight)) &&
    (!p.isDucking ==> p.height == NormalHeight && p.y <= GroundLine) &&
    0 <= p.invincibleTimer <= InvincibleFrames &&
    (!p.invincible ==> p.invincibleTimer == 0)
  }

  /** The invincibility counter advances; past the window invincibility ends. */
  function TickInvincibility(p: PlayerState): PlayerState
  {
    if !p.invincible then p
    else if p.invincibleTimer + 1 > InvincibleFrames then p.(invincible := false, invincibleTimer := 0)
    else p.(invincibleTimer := p.invincibleTimer + 1)
  }

  /** Gravity is integrated, then a fall below the ground line is clamped and ends the jump. */
  function Fall(p: PlayerState): PlayerState
  {
    var v := p.velocityY + Gravity;
    var y := p.y + v;
    if y > GroundLine then p.(y := GroundLine, velocityY := 0.0, isJumping := false)
    else p.(y := y, velocityY := v)
  }

  /** The jump impulse is applied: the key is held, no jump is under way, the player is on the line. */
  predicate JumpFires(p: PlayerState, keys: KeyState)
  {
    keys.JumpPressed() && !p.isJumping && p.y >= GroundLine
  }

  function Jump(p: PlayerState, keys: KeyState): PlayerState
  {
    if JumpFires(p, keys) then p.(velocityY := JumpStrength, isJumping := true) else p
  }

  /** Ducking needs the down arrow and no jump; a ducking player keeps its bottom edge
      on the ground line. */
  function Duck(p: PlayerState, keys: KeyState): PlayerState
  {
    var ducking := keys.arrowDown && !p.isJumping;
    p.(isDucking := ducking,
       height := if ducking then DuckHeight else NormalHeight,
       y := if ducking then GroundLine + (NormalHeight - DuckHeight) else p.y)
  }

  /** The state the clamp leaves, which the jump test reads. */
  function Landed(p: PlayerState): PlayerState
  {
    Fall(TickInvincibility(p))
  }

  /** One Player.update. A frozen game leaves the player as it is; a running one never
      ducks while jumping, and fixes the height and the top edge by the ducking flag. */
  function Step(p: PlayerState, running: bool, keys: KeyState): (q: PlayerState)
    ensures !running ==> q == p
    ensures running ==> !(q.isDucking && q.isJumping)
    ensures running && q.isDucking ==>
              q.height == DuckHeight && q.y == GroundLine + (NormalHeight - DuckHeight)
    ensures running && !q.isDucking ==> q.height == NormalHeight && q.y <= GroundLine
  {
    if !running then p else Duck(Jump(Landed(p), keys), keys)
  }

  lemma InitialInv()
    ensures Inv(Initial())
  {
  }

  /** Every update keeps the invariant. */
  lemma StepKeepsInv(p: PlayerState, running: bool, keys: KeyState)
    requires Inv(p)
    ensures Inv(Step(p, running, keys))
  {
  }

  /** The jump impulse is applied in a running update exactly when JumpFires holds of the
      clamped state; it sets the velocity to the jump strength on the ground line, and
      otherwise the velocity is what gravity and the clamp left. */
  lemma JumpImpulse(p: PlayerState, keys: KeyState)
    ensures var f, q := Landed(p), Step(p, true, keys);
            ((q.isJumping && !f.isJumping) <==> JumpFires(f, keys)) &&
            (JumpFires(f, keys) ==> q.velocityY == JumpStrength && q.y == GroundLine) &&
            (!JumpFires(f, keys) ==> q.velocityY == f.velocityY)
  {
  }

  /** No second impulse in the air: while a jump is under way and the player does not reach
      the ground line, the update only integrates gravity. */
  lemma NoImpulseWhileAirborne(p: PlayerState, keys: KeyState)
    requires p.isJumping && p.y + p.velocityY + Gravity <= GroundLine
    ensures var q := Step(p, true, keys);
            q.isJumping && !q.isDucking &&
            q.velocityY == p.velocityY + Gravity && q.y == p.y + p.velocityY + Gravity
  {
  }

  /** Running updates, one per key state in `ks`. */
  function Run(p: PlayerState, ks: seq<KeyState>): PlayerState
    decreases |ks|
  {
    if ks == [] then p else Run(Step(p, true, ks[0]), ks[1..])
  }

  /** Invincibility set with the counter at `t` lasts through the running updates that take
      the counter to 60, whatever the keys, and is cleared (with the counter back at 0) by the
      next one. After a restart (t = 0) that is the 61st update. */
  lemma {:induction false} InvincibilityWindow(p: PlayerState, ks: seq<KeyState>)
    requires p.invincible && 0 <= p.invincibleTimer <= InvincibleFrames
    requires p.invincibleTimer + |ks| <= InvincibleFrames + 1
    ensures var q := Run(p, ks);
            if p.invincibleTimer + |ks| <= InvincibleFrames
            then q.invincible && q.invincibleTimer == p.invincibleTimer + |ks|
            else !q.invincible && q.invincibleTimer == 0
    decreases |ks|
  {
    if ks != [] {
      var p' := Step(p, true, ks[0]);
      assert p'.invincibleTimer == p.invincibleTimer + 1 || !p'.invincible;
      if p.invincibleTimer + 1 <= InvincibleFrames {
        InvincibilityWindow(p', ks[1..]);
      } else {
        assert ks[1..] == [];
      }
    }
  }

  /** How many of `n` running updates with `keys` held apply the jump impulse. */
  function Impulses(p: PlayerState, keys: KeyState, n: nat): nat
    decreases n
  {
    if n == 0 then 0
    else (if JumpFires(Landed(p), keys) then 1 else 0) + Impulses(Step(p, true, keys), keys, n - 1)
  }

  /** The player `k` updates after a jump impulse from the ground line: after k updates the
      height reached is 0.75 k (31 - k) above the line and the velocity is -24 + 1.5 k. */
  function Airborne(k: nat): PlayerState
  {
    var t := k as real;
    PlayerState(GroundLine + 0.75 * t * (t - 31.0), NormalHeight, JumpStrength + Gravity * t,
                false, true, false, 0)
  }

  lemma MulNonneg(a: real, b: real)
    requires 0.0 <= a && 0.0 <= b
    ensures 0.0 <= a * b
  {
  }

  /** The arc: for k <= 30 one more update keeps the player airborne. */
  lemma AirborneArc(k: nat)
    requires k <= 30
    ensures Airborne(k).y + Airborne(k).velocityY + Gravity == Airborne(k + 1).y <= GroundLine
  {
    var t := k as real;
    assert Airborne(k + 1).y == GroundLine + 0.75 * (t + 1.0) * (t - 30.0);
    MulNonneg(t + 1.0, 30.0 - t);
  }

  lemma AirborneStep(k: nat, keys: KeyState)
    requires k <= 30
    ensures Step(Airborne(k), true, keys) == Airborne(k + 1)
    ensures !JumpFires(Landed(Airborne(k)), keys)
  {
    AirborneArc(k);
  }

  /** Holding the jump key, the player lands on the 32nd update after an impulse and jumps again at once. */
  lemma LandingRejumps(keys: KeyState)
    requires keys.JumpPressed()
    ensures JumpFires(Landed(Airborne(31)), keys)
    ensures Step(Airborne(31), true, keys) == Airborne(0)
  {
  }

  /** From k updates into a jump, holding the jump key for m more updates applies one impulse
      per landing: (k + m) / 32 of them. */
  lemma {:induction false} ImpulsesInFlight(k: nat, keys: KeyState, m: nat)
    requires k <= 31 && keys.JumpPressed()
    ensures Impulses(Airborne(k), keys, m) == (k + m) / 32
    decreases m
  {
    if m > 0 {
      if k <= 30 {
        AirborneStep(k, keys);
        ImpulsesInFlight(k + 1, keys, m - 1);
      } else {
        LandingRejumps(keys);
        ImpulsesInFlight(0, keys, m - 1);
      }
    }
  }

  /** Holding the jump key from a new, standing player applies exactly one impulse in each
      32 updates; in particular exactly one over 30 consecutive updates. */
  lemma HeldJumpImpulses(keys: KeyState, n: nat)
    requires keys.JumpPressed() && n >= 1
    ensures Impulses(Initial(), keys, n) == 1 + (n - 1) / 32
  {
    assert JumpFires(Landed(Initial()), keys);
    assert Step(Initial(), true, keys) == Airborne(0);
    ImpulsesInFlight(0, keys, n - 1);
  }
}
