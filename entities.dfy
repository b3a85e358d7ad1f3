/**
 * The game's two actors.  Each is a class whose fields its methods update in
 * place, as `Player` and `Enemy` do; the tick of each is specified by a pure
 * function on a snapshot of those fields (`PlayerState`, `EnemyState`), and
 * the invariants the tick keeps are stated on the snapshot.
 */
module Entities {
  import opened Numeric
  import opened Geometry
  import opened Config
  import opened Rules
  import Effects

  // ===========================================================================
  // Enemy
  // ===========================================================================

  /** The enemy's animation states. */
  datatype EnemyAnim =
    | EnemyIdle | EnemyWalking | EnemyRunning | EnemyJumping
    | EnemyAttacking | EnemyAttacking2 | EnemyAttacking3 | EnemyHurt | EnemyDeath

  function EnemyFrames(a: EnemyAnim): (n: int)
    ensures n > 0
  {
    match a
    case EnemyIdle => 4
    case EnemyWalking => 6
    case EnemyRunning => 6
    case EnemyJumping => 4
    case EnemyAttacking => 6
    case EnemyAttacking2 => 6
    case EnemyAttacking3 => 6
    case EnemyHurt => 3
    case EnemyDeath => 4
  }

  function EnemyDuration(a: EnemyAnim): (ms: int)
    ensures ms > 0
  {
    match a
    case EnemyIdle => 200
    case EnemyWalking => 150
    case EnemyRunning => 120
    case EnemyJumping => 150
    case EnemyAttacking => 120
    case EnemyAttacking2 => 120
    case EnemyAttacking3 => 120
    case EnemyHurt => 150
    case EnemyDeath => 200
  }

  /** The outcome of `random.choice` among the three attack animations. */
  datatype AttackVariant = Variant1 | Variant2 | Variant3

  function AttackAnim(v: AttackVariant): EnemyAnim
  {
    match v
    case Variant1 => EnemyAttacking
    case Variant2 => EnemyAttacking2
    case Variant3 => EnemyAttacking3
  }

  /** The outcome of the two drop draws when an enemy dies: nothing, or a power-up of some kind. */
  datatype Drop = NoDrop | DropOf(kind: PowerUpKind)

  /** The fields of an `Enemy`. */
  datatype EnemyState = EnemyState(
    rect: Rect, worldX: int, velY: real, health: int, isDead: bool, deathTimer: int,
    currentCooldown: int, anim: EnemyAnim, currentFrame: int, animationTimer: int,
    direction: int, trail: seq<Effects.Point>, trailTimer: int)

  /** What every enemy satisfies between ticks. */
  predicate ValidEnemy(e: EnemyState)
  {
    e.rect.w == ENEMY_W && e.rect.h == ENEMY_H &&
    0 <= e.health <= ENEMY_MAX_HEALTH && (e.isDead <==> e.health == 0) &&
    0 <= e.worldX <= ENEMY_MAP_RIGHT &&
    0 <= e.currentCooldown <= ENEMY_ATTACK_COOLDOWN &&
    |e.trail| <= TRAIL_LENGTH && 0 <= e.trailTimer &&
    0 <= e.deathTimer && 0 <= e.currentFrame && 0 <= e.animationTimer &&
    (e.direction == 1 || e.direction == -1)
  }

  /** A fresh enemy standing with its bottom at `bottom`, at world x `x`. */
  function NewEnemy(x: int, bottom: int): (e: EnemyState)
    ensures 0 <= x <= ENEMY_MAP_RIGHT ==> ValidEnemy(e)
    ensures e.rect.Bottom() == bottom && e.worldX == x && e.health == ENEMY_MAX_HEALTH && !e.isDead
  {
    EnemyState(Rect(x, bottom - ENEMY_H, ENEMY_W, ENEMY_H), x, 0.0, ENEMY_MAX_HEALTH, false, 0,
      0, EnemyIdle, 0, 0, 1, [], 0)
  }

  /** `update_animation` of an enemy: the animation clock for its current state. */
  function EnemyAnimate(e: EnemyState): (r: EnemyState)
    ensures ValidEnemy(e) ==> ValidEnemy(r)
    ensures r == e.(animationTimer := r.animationTimer, currentFrame := r.currentFrame)
    ensures 0 <= r.currentFrame < EnemyFrames(e.anim) || r.currentFrame == e.currentFrame
  {
    var a := AdvanceAnimation(e.animationTimer, e.currentFrame, EnemyDuration(e.anim), EnemyFrames(e.anim));
    e.(animationTimer := a.0, currentFrame := a.1)
  }

  /**
   * `Enemy.take_damage`: health floored at 0, death and its animation on
   * reaching 0, and the power-up the death may drop at the enemy's centre.
   */
  function EnemyWounded(e: EnemyState, damage: nat, drop: Drop): (r: (EnemyState, Option<PowerUp>))
    ensures r.0.health == DamagedHealth(e.health, damage)
    ensures ValidEnemy(e) ==> ValidEnemy(r.0)
    ensures r.0.rect == e.rect && r.0.worldX == e.worldX
    ensures r.1.Some? <==> e.health - damage <= 0 && drop.DropOf?
    ensures r.1.Some? ==> r.1.value == NewPowerUp(e.rect.CenterX(), e.rect.CenterY(), drop.kind)
  {
    var h := e.health - damage;
    if h <= 0 then
      (e.(health := 0, isDead := true, anim := EnemyDeath, currentFrame := 0),
       if drop.DropOf? then Some(NewPowerUp(e.rect.CenterX(), e.rect.CenterY(), drop.kind)) else None)
    else (e.(health := h), None)
  }

  /** The vertical part of the enemy's tick: gravity, then the ground, then each platform. */
  function EnemyVertical(e: EnemyFall, ground: Rect, platforms: seq<Rect>): (f: EnemyFall)
    ensures f.rect.x == e.rect.x && f.rect.w == e.rect.w && f.rect.h == e.rect.h
  {
    var vy := e.velY + ENEMY_GRAVITY;
    var f0 := EnemyFall(e.rect.(y := Trunc(e.rect.y as real + vy)), vy);
    var f1 := GroundContact(f0, ground);
    BumpAllSnapsToPlatform(f1, platforms);
    BumpAll(f1, platforms)
  }

  /** What the enemy decides: its new world x, direction, animation and cooldown, and the player's health. */
  datatype Act = Act(worldX: int, direction: int, anim: EnemyAnim, cooldown: int, playerHealth: int)

  /**
   * Attack when the player is within range and the cooldown (already counted
   * down this tick) is 0 -- hurting the player by 10 only if the stricter
   * screen test also passes -- and otherwise chase.
   */
  function EnemyAct(worldX: int, direction: int, cooldown: int, rect: Rect,
                    playerX: int, playerRect: Rect, playerHealth: int, variant: AttackVariant): (a: Act)
    ensures InAttackRange(worldX, playerX, cooldown) ==>
      a.worldX == worldX && a.cooldown == ENEMY_ATTACK_COOLDOWN && a.anim == AttackAnim(variant) &&
      a.playerHealth == (if HitLands(rect, playerRect) then playerHealth - ENEMY_DAMAGE else playerHealth)
    ensures !InAttackRange(worldX, playerX, cooldown) ==>
      (a.worldX, a.direction) == ChaseStep(worldX, playerX) && a.cooldown == cooldown &&
      a.playerHealth == playerHealth &&
      a.anim == (if Abs(worldX - playerX) < RUN_DISTANCE then EnemyRunning else EnemyWalking)
  {
    var dist := Abs(worldX - playerX);
    if dist < ATTACK_RANGE && cooldown == 0 then
      Act(worldX, direction, AttackAnim(variant), ENEMY_ATTACK_COOLDOWN,
        if HitLands(rect, playerRect) then playerHealth - ENEMY_DAMAGE else playerHealth)
    else
      var c := ChaseStep(worldX, playerX);
      Act(c.0, c.1, if dist < RUN_DISTANCE then EnemyRunning else EnemyWalking, cooldown, playerHealth)
  }

  /** The afterimage trail: every `trail_interval` ticks the screen centre is appended, keeping the newest five. */
  function TrailStep(trail: seq<Effects.Point>, timer: int, center: Effects.Point): (r: (seq<Effects.Point>, int))
    ensures |trail| <= TRAIL_LENGTH ==> |r.0| <= TRAIL_LENGTH
    ensures timer >= TRAIL_INTERVAL ==> r.0 == Effects.Newest(trail + [center], TRAIL_LENGTH) || |trail| > TRAIL_LENGTH
    ensures timer < TRAIL_INTERVAL ==> r.0 == trail
    ensures r.1 == (if timer >= TRAIL_INTERVAL then 1 else timer + 1)
  {
    assert |trail| <= TRAIL_LENGTH ==> Effects.BoundedAppend(trail, center, TRAIL_LENGTH) == Effects.Newest(trail + [center], TRAIL_LENGTH) by {
      if |trail| <= TRAIL_LENGTH {
        Effects.BoundedAppendFifo(trail, center, TRAIL_LENGTH);
      }
    }
    if timer >= TRAIL_INTERVAL then (Effects.BoundedAppend(trail, center, TRAIL_LENGTH), 1)
    else (trail, timer + 1)
  }

  /** The result of an enemy's tick: its new state, the player's health, and whether it removes itself. */
  datatype EnemyOutcome = EnemyOutcome(enemy: EnemyState, playerHealth: int, killed: bool)

  /**
   * `Enemy.update`.  A dead enemy only advances its death timer (removing
   * itself at 60) and its animation.  A live one counts its cooldown down,
   * falls and lands, attacks or chases, resyncs its screen x to its world x,
   * extends its trail and advances its animation.
   */
  function EnemyTick(e: EnemyState, playerX: int, playerRect: Rect, playerHealth: int,
                     ground: Rect, platforms: seq<Rect>, scroll: int, variant: AttackVariant): (r: EnemyOutcome)
    ensures ValidEnemy(e) ==> ValidEnemy(r.enemy)
    ensures r.playerHealth == playerHealth || r.playerHealth == playerHealth - ENEMY_DAMAGE
    ensures e.isDead ==>
      r.playerHealth == playerHealth && r.enemy.deathTimer == e.deathTimer + 1 &&
      r.enemy.anim == EnemyDeath && r.enemy.rect == e.rect && r.enemy.worldX == e.worldX &&
      (r.killed <==> e.deathTimer + 1 >= DEATH_DURATION)
    ensures !e.isDead ==> !r.killed && r.enemy.rect.x == r.enemy.worldX - scroll && r.enemy.health == e.health
  {
    if e.isDead then
      var d := DyingTick(e);
      EnemyOutcome(d, playerHealth, d.deathTimer >= DEATH_DURATION)
    else
      var l := LiveTick(e, playerX, playerRect, playerHealth, ground, platforms, scroll, variant);
      EnemyOutcome(l.0, l.1, false)
  }

  /** The tick of a dead enemy: the death animation and its timer. */
  function DyingTick(e: EnemyState): (r: EnemyState)
    ensures ValidEnemy(e) ==> ValidEnemy(r)
    ensures r == EnemyAnimate(e.(anim := EnemyDeath, deathTimer := e.deathTimer + 1))
  {
    EnemyAnimate(e.(anim := EnemyDeath, deathTimer := e.deathTimer + 1))
  }

  /** The tick of a live enemy up to its animation step, with the player's health after it. */
  function LiveMove(e: EnemyState, playerX: int, playerRect: Rect, playerHealth: int,
                    ground: Rect, platforms: seq<Rect>, scroll: int, variant: AttackVariant): (r: (EnemyState, int))
    ensures ValidEnemy(e) ==> ValidEnemy(r.0)
    ensures r.1 == playerHealth || r.1 == playerHealth - ENEMY_DAMAGE
    ensures r.0.rect.x == r.0.worldX - scroll && r.0.health == e.health
  {
    var m := Approach(e, playerX, playerRect, playerHealth, ground, platforms, variant);
    var rect := m.0.rect.(x := m.0.worldX - scroll);
    var t := TrailStep(e.trail, e.trailTimer, Effects.Point(rect.CenterX(), rect.CenterY()));
    (m.0.(rect := rect, trail := t.0, trailTimer := t.1), m.1)
  }

  /** The cooldown, the fall and the attack-or-chase decision of a live enemy's tick. */
  function Approach(e: EnemyState, playerX: int, playerRect: Rect, playerHealth: int,
                    ground: Rect, platforms: seq<Rect>, variant: AttackVariant): (r: (EnemyState, int))
    ensures ValidEnemy(e) ==> ValidEnemy(r.0)
    ensures r.1 == playerHealth || r.1 == playerHealth - ENEMY_DAMAGE
    ensures r.0.health == e.health && r.0.trail == e.trail && r.0.trailTimer == e.trailTimer
  {
    var cd := Decrement(e.currentCooldown);
    var f := EnemyVertical(EnemyFall(e.rect, e.velY), ground, platforms);
    var a := EnemyAct(e.worldX, e.direction, cd, f.rect, playerX, playerRect, playerHealth, variant);
    (e.(currentCooldown := a.cooldown, velY := f.velY, rect := f.rect, worldX := a.worldX,
        direction := a.direction, anim := a.anim),
     a.playerHealth)
  }

  /** The tick of a live enemy, with the player's health after it. */
  function LiveTick(e: EnemyState, playerX: int, playerRect: Rect, playerHealth: int,
                    ground: Rect, platforms: seq<Rect>, scroll: int, variant: AttackVariant): (r: (EnemyState, int))
    ensures ValidEnemy(e) ==> ValidEnemy(r.0)
    ensures r.1 == playerHealth || r.1 == playerHealth - ENEMY_DAMAGE
    ensures r.0.rect.x == r.0.worldX - scroll && r.0.health == e.health
  {
    var m := LiveMove(e, playerX, playerRect, playerHealth, ground, platforms, scroll, variant);
    (EnemyAnimate(m.0), m.1)
  }

  /**
   * The enemy's hit goes straight to `health`: no shield reduction and no
   * floor, so a player on 5 health is left on -5.
   */
  lemma EnemyHitBypassesShieldAndFloor(e: EnemyState, playerRect: Rect, ground: Rect, scroll: int)
    requires ValidEnemy(e) && !e.isDead && e.currentCooldown <= 1 && e.worldX == 450
    requires HitLands(EnemyVertical(EnemyFall(e.rect, e.velY), ground, []).rect, playerRect)
    ensures EnemyTick(e, 500, playerRect, 5, ground, [], scroll, Variant1).playerHealth == -5
  {
  }

  class Enemy {
    var rect: Rect
    var worldX: int
    var velY: real
    var health: int
    var isDead: bool
    var deathTimer: int
    var currentCooldown: int
    var anim: EnemyAnim
    var currentFrame: int
    var animationTimer: int
    var direction: int
    var trail: seq<Effects.Point>
    var trailTimer: int

    function State(): EnemyState
      reads this
    {
      EnemyState(rect, worldX, velY, health, isDead, deathTimer, currentCooldown, anim,
        currentFrame, animationTimer, direction, trail, trailTimer)
    }

    predicate Valid()
      reads this
    {
      ValidEnemy(State())
    }

    /** `Enemy(x, y, ...)`: placed with its left edge at `x` and its bottom at `bottom`. */
    constructor (x: int, bottom: int)
      ensures State() == NewEnemy(x, bottom)
    {
      var e := NewEnemy(x, bottom);
      rect, worldX, velY, health, isDead, deathTimer := e.rect, e.worldX, e.velY, e.health, e.isDead, e.deathTimer;
      currentCooldown, anim, currentFrame, animationTimer := e.currentCooldown, e.anim, e.currentFrame, e.animationTimer;
      direction, trail, trailTimer := e.direction, e.trail, e.trailTimer;
    }

    method UpdateAnimation()
      modifies this`animationTimer, this`currentFrame
      ensures State() == EnemyAnimate(old(State()))
    {
      animationTimer := animationTimer + 1;
      if animationTimer * 1000 >= EnemyDuration(anim) * 60 {
        animationTimer := 0;
        currentFrame := (currentFrame + 1) % EnemyFrames(anim);
      }
    }

    method TakeDamage(damage: nat, drop: Drop) returns (dropped: Option<PowerUp>)
      modifies this`health, this`isDead, this`anim, this`currentFrame
      ensures (State(), dropped) == EnemyWounded(old(State()), damage, drop)
    {
      health := health - damage;
      dropped := None;
      if health <= 0 {
        health := 0;
        isDead := true;
        anim := EnemyDeath;
        currentFrame := 0;
        if drop.DropOf? {
          dropped := Some(NewPowerUp(rect.CenterX(), rect.CenterY(), drop.kind));
        }
      }
    }

    /**
     * `Enemy.update`, writing the player's health in place on a hit and
     * returning whether the enemy removed itself (`kill()`).
     */
    method Update(player: Player, ground: Rect, platforms: seq<Rect>, scroll: int, variant: AttackVariant)
      returns (killed: bool)
      modifies this, player`health
      ensures EnemyOutcome(State(), player.health, killed) ==
        EnemyTick(old(State()), player.worldX, player.rect, old(player.health), ground, platforms, scroll, variant)
    {
      if isDead {
        Die();
        killed := deathTimer >= DEATH_DURATION;
      } else {
        Live(player, ground, platforms, scroll, variant);
        killed := false;
      }
    }

    /** The dead branch of `update`. */
    method Die()
      modifies this
      ensures State() == DyingTick(old(State()))
    {
      anim := EnemyDeath;
      deathTimer := deathTimer + 1;
      UpdateAnimation();
    }

    /** The live branch of `update`. */
    method Live(player: Player, ground: Rect, platforms: seq<Rect>, scroll: int, variant: AttackVariant)
      modifies this, player`health
      ensures (State(), player.health) ==
        LiveTick(old(State()), player.worldX, player.rect, old(player.health), ground, platforms, scroll, variant)
    {
      Advance(player, ground, platforms, scroll, variant);
      UpdateAnimation();
    }

    /** The live branch up to the animation step. */
    method Advance(player: Player, ground: Rect, platforms: seq<Rect>, scroll: int, variant: AttackVariant)
      modifies this`currentCooldown, this`velY, this`rect, this`worldX, this`direction, this`anim,
        this`trail, this`trailTimer, player`health
      ensures (State(), player.health) ==
        LiveMove(old(State()), player.worldX, player.rect, old(player.health), ground, platforms, scroll, variant)
    {
      Close(player, ground, platforms, variant);
      rect := rect.(x := worldX - scroll);
      ExtendTrail();
    }

    /** The cooldown, the fall and the attack-or-chase decision. */
    method Close(player: Player, ground: Rect, platforms: seq<Rect>, variant: AttackVariant)
      modifies this`currentCooldown, this`velY, this`rect, this`worldX, this`direction, this`anim, player`health
      ensures (State(), player.health) ==
        Approach(old(State()), player.worldX, player.rect, old(player.health), ground, platforms, variant)
    {
      if currentCooldown > 0 {
        currentCooldown := currentCooldown - 1;
      }
      Descend(ground, platforms);
      Engage(player, variant);
    }

    /** Gravity, then the ground, then each platform in turn. */
    method Descend(ground: Rect, platforms: seq<Rect>)
      modifies this`velY, this`rect
      ensures EnemyFall(rect, velY) == EnemyVertical(EnemyFall(old(rect), old(velY)), ground, platforms)
    {
      velY := velY + ENEMY_GRAVITY;
      rect := rect.(y := Trunc(rect.y as real + velY));
      if Overlaps(rect, ground) {
        rect := rect.WithBottom(ground.y);
        velY := 0.0;
      }
      ghost var f1 := EnemyFall(rect, velY);
      var i := 0;
      while i < |platforms|
        invariant 0 <= i <= |platforms|
        invariant EnemyFall(rect, velY) == BumpAll(f1, platforms[..i])
      {
        assert platforms[..i + 1][..i] == platforms[..i];
        var platform := platforms[i];
        if Overlaps(rect, platform) {
          if velY > 0.0 {
            rect := rect.WithBottom(platform.y);
            velY := 0.0;
          } else if velY < 0.0 {
            rect := rect.(y := platform.Bottom());
            velY := 0.0;
          }
        }
        i := i + 1;
      }
      assert platforms[..i] == platforms;
    }

    /** Attack when the player is in range and the cooldown is 0, otherwise chase. */
    method Engage(player: Player, variant: AttackVariant)
      modifies this`worldX, this`direction, this`anim, this`currentCooldown, player`health
      ensures var a := EnemyAct(old(worldX), old(direction), old(currentCooldown), rect,
                                player.worldX, player.rect, old(player.health), variant);
        (worldX, direction, anim, currentCooldown, player.health) == (a.worldX, a.direction, a.anim, a.cooldown, a.playerHealth)
    {
      var dist := Abs(worldX - player.worldX);
      if dist < ATTACK_RANGE && currentCooldown == 0 {
        anim := AttackAnim(variant);
        currentCooldown := ENEMY_ATTACK_COOLDOWN;
        if Abs(rect.CenterX() - player.rect.CenterX()) < ATTACK_RANGE && Abs(rect.CenterY() - player.rect.CenterY()) < HIT_HEIGHT {
          player.health := player.health - ENEMY_DAMAGE;
        }
      } else {
        if worldX < player.worldX {
          direction := 1;
          var newX := worldX + ENEMY_SPEED;
          if newX <= ENEMY_MAP_RIGHT {
            worldX := newX;
          }
        } else {
          direction := -1;
          var newX := worldX - ENEMY_SPEED;
          if newX >= 0 {
            worldX := newX;
          }
        }
        anim := if dist < RUN_DISTANCE then EnemyRunning else EnemyWalking;
      }
    }

    /** The trail step of `update`. */
    method ExtendTrail()
      modifies this`trail, this`trailTimer
      ensures (trail, trailTimer) == TrailStep(old(trail), old(trailTimer), Effects.Point(rect.CenterX(), rect.CenterY()))
    {
      if trailTimer >= TRAIL_INTERVAL {
        trail := Effects.BoundedAppend(trail, Effects.Point(rect.CenterX(), rect.CenterY()), TRAIL_LENGTH);
        trailTimer := 0;
      }
      trailTimer := trailTimer + 1;
    }
  }

  // ===========================================================================
  // Player
  // ===========================================================================

  /** The keys `Player.update` reads: arrows, space, X, C, left shift and V. */
  datatype Keys = Keys(left: bool, right: bool, jump: bool, attack: bool, magic: bool, dash: bool, shield: bool)

  /** The fields of a `Player` that its tick reads or writes. */
  datatype PlayerState = PlayerState(
    rect: Rect, worldX: int, velY: int, facingRight: bool,
    attacking: bool, casting: bool, dashing: bool,
    attackCooldown: int, castCooldown: int, dashCooldown: int,
    health: int, mana: real, shield: Shield,
    state: PlayerAnim, currentFrame: int, animationTimer: int,
    score: int, isDead: bool, currentState: Option<PlayerAnim>)

  /**
   * What the player satisfies between ticks except for the map bound: each
   * ability flag is set exactly while its cooldown runs, at most one is set,
   * mana stays in [0, max], health never exceeds max (it has no floor), and an
   * active shield has duration left and no cooldown.
   */
  predicate Steady(p: PlayerState)
  {
    p.rect.w == PLAYER_W && p.rect.h == PLAYER_H &&
    0 <= p.attackCooldown <= ATTACK_COOLDOWN && (p.attacking <==> p.attackCooldown > 0) &&
    0 <= p.castCooldown <= CAST_COOLDOWN && (p.casting <==> p.castCooldown > 0) &&
    0 <= p.dashCooldown <= DASH_COOLDOWN && (p.dashing <==> p.dashCooldown > 0) &&
    !(p.attacking && p.casting) && !(p.attacking && p.dashing) && !(p.casting && p.dashing) &&
    0.0 <= p.mana <= PLAYER_MAX_MANA && p.health <= PLAYER_MAX_HEALTH &&
    0 <= p.shield.cooldown <= SHIELD_COOLDOWN &&
    (p.shield.active ==> 1 <= p.shield.duration <= SHIELD_DURATION && p.shield.cooldown == 0) &&
    0 <= p.currentFrame && 0 <= p.animationTimer
  }

  /** `Steady`, and the world x inside the map. */
  predicate ValidPlayer(p: PlayerState)
  {
    Steady(p) && 0 <= p.worldX <= PLAYER_MAP_RIGHT
  }

  /** Mana regeneration, the state pick and `update_animation`: the first steps of the tick. */
  function StepAnimate(p: PlayerState, moving: bool): (q: PlayerState)
    ensures Steady(p) ==> Steady(q)
    ensures q.worldX == p.worldX && q.rect == p.rect
    ensures q.mana == RegenMana(p.mana)
    ensures q.state == PickState(p.dashing, p.attacking, p.casting, p.velY, moving)
    ensures 0 <= q.currentFrame < PlayerFrames(q.state) || q.currentFrame == p.currentFrame
  {
    var s := PickState(p.dashing, p.attacking, p.casting, p.velY, moving);
    var a := AdvanceAnimation(p.animationTimer, p.currentFrame, PlayerDuration(s), PlayerFrames(s));
    p.(mana := RegenMana(p.mana), state := s, animationTimer := a.0, currentFrame := a.1)
  }

  /** The three cooldown/flag pairs, each one tick on. */
  function StepCooldowns(p: PlayerState): (q: PlayerState)
    ensures Steady(p) ==> Steady(q)
    ensures q.worldX == p.worldX && q.rect == p.rect && q.mana == p.mana
    ensures (q.attackCooldown, q.attacking) == CooldownStep(p.attackCooldown, p.attacking)
    ensures (q.castCooldown, q.casting) == CooldownStep(p.castCooldown, p.casting)
    ensures (q.dashCooldown, q.dashing) == CooldownStep(p.dashCooldown, p.dashing)
  {
    var a := CooldownStep(p.attackCooldown, p.attacking);
    var c := CooldownStep(p.castCooldown, p.casting);
    var d := CooldownStep(p.dashCooldown, p.dashing);
    p.(attackCooldown := a.0, attacking := a.1, castCooldown := c.0, casting := c.1,
       dashCooldown := d.0, dashing := d.1)
  }

  /** Gravity: one unit more downward speed, then the fall. */
  function StepGravity(p: PlayerState): (q: PlayerState)
    ensures Steady(p) ==> Steady(q)
    ensures q.worldX == p.worldX && q.velY == p.velY + PLAYER_GRAVITY
    ensures q.rect == p.rect.(y := p.rect.y + q.velY)
  {
    p.(velY := p.velY + PLAYER_GRAVITY, rect := p.rect.(y := p.rect.y + p.velY + PLAYER_GRAVITY))
  }

  /**
   * Horizontal movement (skipped while attacking or casting) and the camera
   * hand-off.  World x moves by the keys; unless the scroll cap or floor cuts
   * in, screen x plus scroll moves by the same amount.
   */
  function StepMove(p: PlayerState, keys: Keys, scroll: int): (r: (PlayerState, int))
    ensures Steady(p) ==> Steady(r.0)
    ensures p.attacking || p.casting ==> r == (p, scroll)
    ensures !p.attacking && !p.casting ==>
      r.0.worldX == p.worldX - (if keys.left then PLAYER_SPEED else 0) + (if keys.right then PLAYER_SPEED else 0)
    ensures 0 <= scroll + (r.0.worldX - p.worldX) <= MAX_SCROLL ==>
      r.0.rect.x + r.1 == p.rect.x + scroll + (r.0.worldX - p.worldX)
    ensures 0 <= scroll <= MAX_SCROLL && r.0.worldX >= p.worldX ==> r.1 >= 0
    ensures 0 <= scroll <= MAX_SCROLL && r.0.worldX <= p.worldX ==> r.1 <= MAX_SCROLL
  {
    if p.attacking || p.casting then (p, scroll)
    else
      var oldX := p.rect.x;
      var dx := (if keys.right then PLAYER_SPEED else 0) - (if keys.left then PLAYER_SPEED else 0);
      var facing := if keys.right then true else if keys.left then false else p.facingRight;
      var v := CameraHandOff(oldX, oldX + dx, scroll);
      assert 0 <= scroll <= MAX_SCROLL ==> (dx >= 0 ==> v.scroll >= 0) && (dx <= 0 ==> v.scroll <= MAX_SCROLL) by {
        if 0 <= scroll <= MAX_SCROLL {
          HandOffBoundedTowardTravel(oldX, oldX + dx, scroll);
        }
      }
      assert 0 <= scroll + dx <= MAX_SCROLL ==> v.rectX + v.scroll == oldX + dx + scroll by {
        if 0 <= scroll + dx <= MAX_SCROLL {
          HandOffKeepsWorldOffset(oldX, oldX + dx, scroll);
        }
      }
      (p.(rect := p.rect.(x := v.rectX), worldX := p.worldX + dx, facingRight := facing), v.scroll)
  }

  /** The map bound: world x clamped into [0, right], and the screen x resynced when it was clamped. */
  function StepClamp(p: PlayerState, scroll: int): (q: PlayerState)
    ensures Steady(p) ==> ValidPlayer(q)
    ensures q.worldX == ClampX(p.worldX, PLAYER_MAP_RIGHT)
    ensures q.worldX != p.worldX ==> q.rect.x == q.worldX - scroll
    ensures q.worldX == p.worldX ==> q == p
  {
    if p.worldX < 0 then p.(worldX := 0, rect := p.rect.(x := 0 - scroll))
    else if p.worldX > PLAYER_MAP_RIGHT then p.(worldX := PLAYER_MAP_RIGHT, rect := p.rect.(x := PLAYER_MAP_RIGHT - scroll))
    else p
  }

  /** The dash: when granted, spends 20 mana, starts the 45-tick cooldown and jumps 30 units, clamped into the map. */
  function StepDash(p: PlayerState, pressed: bool, scroll: int): (q: PlayerState)
    ensures ValidPlayer(p) ==> ValidPlayer(q)
    ensures CanDash(pressed, p.dashCooldown, p.attacking, p.casting, p.mana) ==>
      q.dashing && q.dashCooldown == DASH_COOLDOWN && q.mana == p.mana - DASH_COST &&
      q.worldX == DashTarget(p.worldX, p.facingRight) && q.rect.x == q.worldX - scroll
    ensures !CanDash(pressed, p.dashCooldown, p.attacking, p.casting, p.mana) ==> q == p
  {
    if CanDash(pressed, p.dashCooldown, p.attacking, p.casting, p.mana) then
      var w := DashTarget(p.worldX, p.facingRight);
      p.(dashing := true, dashCooldown := DASH_COOLDOWN, mana := p.mana - DASH_COST,
         worldX := w, rect := p.rect.(x := w - scroll))
    else p
  }

  /** Landing on the platforms' collision boxes and then the ground. */
  function StepLand(p: PlayerState, surfaces: seq<Rect>): (q: PlayerState)
    ensures Steady(p) ==> Steady(q)
    ensures q.worldX == p.worldX && q.rect.x == p.rect.x
    ensures q == p || (p.velY > 0 && q.velY == 0 && exists k :: 0 <= k < |surfaces| && q.rect.Bottom() == surfaces[k].y)
  {
    var f := LandAll(Fall(p.rect, p.velY), surfaces);
    LandAllSnapsToSurface(Fall(p.rect, p.velY), surfaces);
    p.(rect := f.rect, velY := f.velY)
  }

  /** The jump: only from rest. */
  function StepJump(p: PlayerState, pressed: bool): (q: PlayerState)
    ensures Steady(p) ==> Steady(q)
    ensures q.worldX == p.worldX && q.rect == p.rect
    ensures q.velY != p.velY <==> pressed && p.velY == 0
    ensures q.velY != p.velY ==> q.velY == JUMP_VELOCITY
  {
    if pressed && p.velY == 0 then p.(velY := JUMP_VELOCITY) else p
  }

  /** The melee gate: when granted, `attack` sets the flag and the 30-tick cooldown. */
  function StepAttack(p: PlayerState, pressed: bool): (q: PlayerState)
    ensures Steady(p) ==> Steady(q)
    ensures CanAttack(pressed, p.attackCooldown, p.casting, p.dashing) ==>
      q == p.(attacking := true, attackCooldown := ATTACK_COOLDOWN)
    ensures !CanAttack(pressed, p.attackCooldown, p.casting, p.dashing) ==> q == p
  {
    if CanAttack(pressed, p.attackCooldown, p.casting, p.dashing) then
      p.(attacking := true, attackCooldown := ATTACK_COOLDOWN)
    else p
  }

  /** The magic gate: when granted, `cast_magic` sets the flag and the 45-tick cooldown and 30 mana is spent. */
  function StepCast(p: PlayerState, pressed: bool): (q: PlayerState)
    ensures Steady(p) ==> Steady(q)
    ensures CanCast(pressed, p.castCooldown, p.attacking, p.dashing, p.mana) ==>
      q == p.(casting := true, castCooldown := CAST_COOLDOWN, mana := p.mana - MAGIC_COST)
    ensures !CanCast(pressed, p.castCooldown, p.attacking, p.dashing, p.mana) ==> q == p
  {
    if CanCast(pressed, p.castCooldown, p.attacking, p.dashing, p.mana) then
      p.(casting := true, castCooldown := CAST_COOLDOWN, mana := p.mana - MAGIC_COST)
    else p
  }

  /** Power-up pickup: health and mana as `Collect` leaves them. */
  function StepCollect(p: PlayerState, pups: seq<PowerUp>): (r: (PlayerState, seq<PowerUp>))
    ensures Steady(p) ==> Steady(r.0)
    ensures r.0 == p.(health := r.0.health, mana := r.0.mana)
    ensures p.health <= PLAYER_MAX_HEALTH && p.mana <= PLAYER_MAX_MANA ==>
      p.health <= r.0.health <= PLAYER_MAX_HEALTH && p.mana <= r.0.mana <= PLAYER_MAX_MANA
  {
    var c := Collect(p.rect, p.health, p.mana, pups);
    assert p.health <= PLAYER_MAX_HEALTH && p.mana <= PLAYER_MAX_MANA ==>
      p.health <= c.health <= PLAYER_MAX_HEALTH && p.mana <= c.mana <= PLAYER_MAX_MANA by {
      if p.health <= PLAYER_MAX_HEALTH && p.mana <= PLAYER_MAX_MANA {
        CollectStaysBounded(p.rect, p.health, p.mana, pups);
      }
    }
    (p.(health := c.health, mana := c.mana), c.remaining)
  }

  /** The shield: one tick of its timers, then activation (600 ticks for 35 mana) when granted. */
  function StepShield(p: PlayerState, pressed: bool): (q: PlayerState)
    ensures Steady(p) ==> Steady(q)
    ensures var s := ShieldTick(p.shield);
      if CanShield(pressed, s.active, s.cooldown, p.mana)
      then q == p.(shield := Shield(true, SHIELD_DURATION, s.cooldown), mana := p.mana - SHIELD_COST)
      else q == p.(shield := s)
  {
    var s := ShieldTick(p.shield);
    if CanShield(pressed, s.active, s.cooldown, p.mana) then
      p.(shield := Shield(true, SHIELD_DURATION, s.cooldown), mana := p.mana - SHIELD_COST)
    else p.(shield := s)
  }

  /** The player's state and the camera scroll just before the attack gate. */
  function PlayerMotion(p: PlayerState, keys: Keys, surfaces: seq<Rect>, scroll: int): (r: (PlayerState, int))
    ensures ValidPlayer(p) ==> ValidPlayer(r.0)
  {
    var p1 := StepCooldowns(StepAnimate(p, keys.left || keys.right));
    var p2 := StepGravity(p1);
    var m := StepMove(p2, keys, scroll);
    var p3 := StepClamp(m.0, m.1);
    var p4 := StepJump(StepLand(StepDash(p3, keys.dash, m.1), surfaces), keys.jump);
    (p4, m.1)
  }

  /** The result of a player tick: the player, the camera scroll and the power-ups left. */
  datatype PlayerOutcome = PlayerOutcome(player: PlayerState, scroll: int, powerUps: seq<PowerUp>)

  /**
   * `Player.update`, apart from its effect on the enemies: every step in
   * source order.  `pups` holds the power-ups present at pickup time,
   * including any the tick's own hits dropped.
   */
  function PlayerTick(p: PlayerState, keys: Keys, surfaces: seq<Rect>, scroll: int, pups: seq<PowerUp>): (r: PlayerOutcome)
    ensures ValidPlayer(p) ==> ValidPlayer(r.player)
    ensures ValidPlayer(p) && 0 <= scroll <= MAX_SCROLL && (keys.left == keys.right || keys.right) ==> r.scroll >= 0
    ensures ValidPlayer(p) && 0 <= scroll <= MAX_SCROLL && (keys.left == keys.right || keys.left) ==> r.scroll <= MAX_SCROLL
  {
    var m := PlayerMotion(p, keys, surfaces, scroll);
    var p5 := StepCast(StepAttack(m.0, keys.attack), keys.magic);
    var c := StepCollect(p5, pups);
    PlayerOutcome(StepShield(c.0, keys.shield), m.1, c.1)
  }

  /** `Player.take_damage`: halved under the shield, floored at 0, and death recorded in `current_state`. */
  function PlayerHurt(p: PlayerState, damage: nat): (q: PlayerState)
    ensures q.health == DamagedHealth(p.health, ShieldedDamage(damage, p.shield.active))
    ensures q.isDead <==> p.isDead || q.health == 0
    ensures q.health == 0 ==> q.currentState == Some(Death) && q.currentFrame == 0
    ensures q.state == p.state
    ensures ValidPlayer(p) ==> ValidPlayer(q)
  {
    var h := p.health - ShieldedDamage(damage, p.shield.active);
    if h <= 0 then p.(health := 0, isDead := true, currentState := Some(Death), currentFrame := 0)
    else p.(health := h)
  }

  /** The melee and magic boxes: beside the body on the facing side, vertically centred on it. */
  function StrikeBox(p: PlayerState, magic: bool): Rect
  {
    if magic then AttackBox(p.rect, p.facingRight, MAGIC_W, MAGIC_H)
    else AttackBox(p.rect, p.facingRight, ATTACK_W, ATTACK_H)
  }

  /** One enemy after a strike with `box`: hurt only if the box overlaps it. */
  function Struck(e: EnemyState, box: Rect, damage: nat, drop: Drop): (r: (EnemyState, Option<PowerUp>))
    ensures ValidEnemy(e) ==> ValidEnemy(r.0)
    ensures r.0.rect == e.rect
    ensures r.0.health == (if Overlaps(box, e.rect) then DamagedHealth(e.health, damage) else e.health)
  {
    if Overlaps(box, e.rect) then EnemyWounded(e, damage, drop) else (e, None)
  }

  function OptionSeq<T>(o: Option<T>): seq<T>
  {
    if o.Some? then [o.value] else []
  }

  /** The power-ups a strike makes the enemies drop, in group order. */
  function StrikeDrops(es: seq<EnemyState>, box: Rect, damage: nat, drops: seq<Drop>): (r: seq<PowerUp>)
    requires |drops| == |es|
    ensures |r| <= |es|
    decreases |es|
  {
    if es == [] then []
    else
      var n := |es| - 1;
      StrikeDrops(es[..n], box, damage, drops[..n]) + OptionSeq(Struck(es[n], box, damage, drops[n]).1)
  }

  /** One more enemy struck adds its drop, if any, at the end. */
  lemma StrikeDropsStep(es: seq<EnemyState>, box: Rect, damage: nat, drops: seq<Drop>, i: nat)
    requires |drops| == |es| && i < |es|
    ensures StrikeDrops(es[..i + 1], box, damage, drops[..i + 1]) ==
      StrikeDrops(es[..i], box, damage, drops[..i]) + OptionSeq(Struck(es[i], box, damage, drops[i]).1)
  {
    assert es[..i + 1][..i] == es[..i] && drops[..i + 1][..i] == drops[..i];
  }

  predicate Distinct(es: seq<Enemy>)
  {
    forall i, j :: 0 <= i < j < |es| ==> es[i] != es[j]
  }

  function StatesOf(es: seq<Enemy>): (r: seq<EnemyState>)
    reads set e | e in es
    ensures |r| == |es| && forall i :: 0 <= i < |es| ==> r[i] == es[i].State()
  {
    if es == [] then [] else StatesOf(es[..|es| - 1]) + [es[|es| - 1].State()]
  }

  /** Every enemy after a strike with `box`, in group order. */
  function StrikeAll(es: seq<EnemyState>, box: Rect, damage: nat, drops: seq<Drop>): (r: seq<EnemyState>)
    requires |drops| == |es|
    ensures |r| == |es|
    ensures forall i :: 0 <= i < |es| ==> r[i] == Struck(es[i], box, damage, drops[i]).0
  {
    seq(|es|, i requires 0 <= i < |es| => Struck(es[i], box, damage, drops[i]).0)
  }

  /**
   * What the attack and magic keys do to the enemies, for a player in state
   * `p` just before the attack gate: with melee granted each enemy is struck
   * by the melee box for 30, with magic granted by the magic box for 45
   * (never both), otherwise nothing happens; `dropped` is what the struck
   * enemies drop, in group order.
   */
  predicate Strikes(p: PlayerState, keys: Keys, before: seq<EnemyState>, after: seq<EnemyState>,
                    attackDrops: seq<Drop>, magicDrops: seq<Drop>, dropped: seq<PowerUp>)
    requires |attackDrops| == |before| && |magicDrops| == |before|
  {
    var melee := CanAttack(keys.attack, p.attackCooldown, p.casting, p.dashing);
    var magic := CanCast(keys.magic, p.castCooldown, p.attacking, p.dashing, p.mana);
    after == (if melee then StrikeAll(before, StrikeBox(p, false), ATTACK_DAMAGE, attackDrops)
              else if magic then StrikeAll(before, StrikeBox(p, true), MAGIC_DAMAGE, magicDrops)
              else before) &&
    dropped == (if melee then StrikeDrops(before, StrikeBox(p, false), ATTACK_DAMAGE, attackDrops)
                else if magic then StrikeDrops(before, StrikeBox(p, true), MAGIC_DAMAGE, magicDrops)
                else [])
  }

  class Player {
    var rect: Rect
    var worldX: int
    var velY: int
    var facingRight: bool
    var attacking: bool
    var casting: bool
    var dashing: bool
    var attackCooldown: int
    var castCooldown: int
    var dashCooldown: int
    var health: int
    var mana: real
    var shieldActive: bool
    var shieldDuration: int
    var shieldCooldown: int
    var state: PlayerAnim
    var currentFrame: int
    var animationTimer: int
    var score: int
    var isDead: bool
    var currentState: Option<PlayerAnim>

    function State(): PlayerState
      reads this
    {
      PlayerState(rect, worldX, velY, facingRight, attacking, casting, dashing,
        attackCooldown, castCooldown, dashCooldown, health, mana,
        Shield(shieldActive, shieldDuration, shieldCooldown),
        state, currentFrame, animationTimer, score, isDead, currentState)
    }

    predicate Valid()
      reads this
    {
      ValidPlayer(State())
    }

    /**
     * `Player(x, y)`: centred on (x, y), full health and mana, no ability
     * running; the animation timer starts at the clock reading `ticks`; the
     * dash trail is registered with the effect manager.
     */
    constructor (x: int, y: int, ticks: nat, fx: Effects.EffectManager)
      requires fx.Valid()
      modifies fx`trails
      ensures fx.Valid()
      ensures rect == Rect(x - PLAYER_W / 2, y - PLAYER_H / 2, PLAYER_W, PLAYER_H) && worldX == x
      ensures health == PLAYER_MAX_HEALTH && mana == PLAYER_MAX_MANA && score == 0
      ensures !attacking && !casting && !dashing && !shieldActive && velY == 0 && facingRight
      ensures 0 <= x <= PLAYER_MAP_RIGHT ==> Valid()
      ensures fx.trails == old(fx.trails)["player_dash" := Effects.TrailRec([], 3, Effects.Color(255, 255, 100), 20)]
    {
      rect := Rect(x - PLAYER_W / 2, y - PLAYER_H / 2, PLAYER_W, PLAYER_H);
      worldX := x;
      velY := 0;
      facingRight := true;
      attacking, casting, dashing := false, false, false;
      attackCooldown, castCooldown, dashCooldown := 0, 0, 0;
      health := PLAYER_MAX_HEALTH;
      mana := PLAYER_MAX_MANA;
      shieldActive, shieldDuration, shieldCooldown := false, SHIELD_DURATION, 0;
      state := Idle;
      currentFrame := 0;
      animationTimer := ticks;
      score := 0;
      isDead := false;
      currentState := None;
      new;
      fx.CreateTrail("player_dash", Effects.Color(255, 255, 100));
    }

    method UpdateAnimation()
      modifies this`animationTimer, this`currentFrame
      ensures (animationTimer, currentFrame) ==
        AdvanceAnimation(old(animationTimer), old(currentFrame), PlayerDuration(state), PlayerFrames(state))
    {
      animationTimer := animationTimer + 1;
      if animationTimer * 1000 >= PlayerDuration(state) * 60 {
        animationTimer := 0;
        currentFrame := (currentFrame + 1) % PlayerFrames(state);
      }
    }

    /** Hurts every enemy the box overlaps, in group order, collecting what they drop. */
    static method Strike(box: Rect, damage: nat, enemies: seq<Enemy>, drops: seq<Drop>) returns (dropped: seq<PowerUp>)
      requires |drops| == |enemies| && Distinct(enemies)
      modifies (set e | e in enemies)`health, (set e | e in enemies)`isDead, (set e | e in enemies)`anim, (set e | e in enemies)`currentFrame
      ensures StatesOf(enemies) == StrikeAll(old(StatesOf(enemies)), box, damage, drops)
      ensures dropped == StrikeDrops(old(StatesOf(enemies)), box, damage, drops)
    {
      ghost var before := StatesOf(enemies);
      dropped := [];
      var i := 0;
      while i < |enemies|
        invariant 0 <= i <= |enemies|
        invariant forall j :: 0 <= j < i ==> enemies[j].State() == Struck(before[j], box, damage, drops[j]).0
        invariant forall j :: i <= j < |enemies| ==> unchanged(enemies[j])
        invariant dropped == StrikeDrops(before[..i], box, damage, drops[..i])
      {
        var d := StrikeOne(box, damage, enemies[i], drops[i]);
        StrikeDropsStep(before, box, damage, drops, i);
        dropped := dropped + OptionSeq(d);
        i := i + 1;
      }
      assert before[..i] == before && drops[..i] == drops;
    }

    /** One enemy of the group: `take_damage` if the box overlaps it. */
    static method StrikeOne(box: Rect, damage: nat, e: Enemy, drop: Drop) returns (dropped: Option<PowerUp>)
      modifies e`health, e`isDead, e`anim, e`currentFrame
      ensures (e.State(), dropped) == Struck(old(e.State()), box, damage, drop)
    {
      dropped := None;
      if Overlaps(box, e.rect) {
        dropped := e.TakeDamage(damage, drop);
      }
    }

    /**
     * `attack`: the flag, the cooldown, and 30 damage to each enemy the melee
     * box overlaps.  The flag and cooldown are written after the strike here,
     * which reads neither.
     */
    method Attack(enemies: seq<Enemy>, drops: seq<Drop>) returns (dropped: seq<PowerUp>)
      requires |drops| == |enemies| && Distinct(enemies)
      modifies this`attacking, this`attackCooldown, (set e | e in enemies)`health, (set e | e in enemies)`isDead, (set e | e in enemies)`anim, (set e | e in enemies)`currentFrame
      ensures State() == old(State()).(attacking := true, attackCooldown := ATTACK_COOLDOWN)
      ensures StatesOf(enemies) == StrikeAll(old(StatesOf(enemies)), StrikeBox(State(), false), ATTACK_DAMAGE, drops)
      ensures dropped == StrikeDrops(old(StatesOf(enemies)), StrikeBox(State(), false), ATTACK_DAMAGE, drops)
    {
      dropped := Strike(AttackBox(rect, facingRight, ATTACK_W, ATTACK_H), ATTACK_DAMAGE, enemies, drops);
      attacking := true;
      attackCooldown := ATTACK_COOLDOWN;
    }

    /**
     * `cast_magic`: the flag, the cooldown, and 45 damage to each enemy the
     * larger magic box overlaps (flag and cooldown written after the strike,
     * as in `Attack`).
     */
    method CastMagic(enemies: seq<Enemy>, drops: seq<Drop>) returns (dropped: seq<PowerUp>)
      requires |drops| == |enemies| && Distinct(enemies)
      modifies this`casting, this`castCooldown, (set e | e in enemies)`health, (set e | e in enemies)`isDead, (set e | e in enemies)`anim, (set e | e in enemies)`currentFrame
      ensures State() == old(State()).(casting := true, castCooldown := CAST_COOLDOWN)
      ensures StatesOf(enemies) == StrikeAll(old(StatesOf(enemies)), StrikeBox(State(), true), MAGIC_DAMAGE, drops)
      ensures dropped == StrikeDrops(old(StatesOf(enemies)), StrikeBox(State(), true), MAGIC_DAMAGE, drops)
    {
      dropped := Strike(AttackBox(rect, facingRight, MAGIC_W, MAGIC_H), MAGIC_DAMAGE, enemies, drops);
      casting := true;
      castCooldown := CAST_COOLDOWN;
    }

    /** `take_damage`. */
    method TakeDamage(damage: nat)
      modifies this
      ensures State() == PlayerHurt(old(State()), damage)
    {
      var d := damage;
      if shieldActive {
        d := Trunc(damage as real * 0.5);
      }
      health := health - d;
      if health <= 0 {
        health := 0;
        isDead := true;
        currentState := Some(Death);
        currentFrame := 0;
      }
    }

    /** Mana regeneration, the state pick and the animation clock. */
    method BeginTick(moving: bool)
      modifies this`mana, this`state, this`animationTimer, this`currentFrame
      ensures State() == StepAnimate(old(State()), moving)
    {
      if mana < PLAYER_MAX_MANA {
        mana := MinReal(PLAYER_MAX_MANA, mana + MANA_REGEN);
      }
      state := PickState(dashing, attacking, casting, velY, moving);
      UpdateAnimation();
    }

    method TickCooldowns()
      modifies this`attackCooldown, this`attacking, this`castCooldown, this`casting, this`dashCooldown, this`dashing
      ensures State() == StepCooldowns(old(State()))
    {
      TickAttackCooldown();
      TickCastCooldown();
      TickDashCooldown();
    }

    method TickAttackCooldown()
      modifies this`attackCooldown, this`attacking
      ensures (attackCooldown, attacking) == CooldownStep(old(attackCooldown), old(attacking))
    {
      if attackCooldown > 0 {
        attackCooldown := attackCooldown - 1;
        if attackCooldown == 0 {
          attacking := false;
        }
      }
    }

    method TickCastCooldown()
      modifies this`castCooldown, this`casting
      ensures (castCooldown, casting) == CooldownStep(old(castCooldown), old(casting))
    {
      if castCooldown > 0 {
        castCooldown := castCooldown - 1;
        if castCooldown == 0 {
          casting := false;
        }
      }
    }

    method TickDashCooldown()
      modifies this`dashCooldown, this`dashing
      ensures (dashCooldown, dashing) == CooldownStep(old(dashCooldown), old(dashing))
    {
      if dashCooldown > 0 {
        dashCooldown := dashCooldown - 1;
        if dashCooldown == 0 {
          dashing := false;
        }
      }
    }

    method ApplyGravity()
      modifies this`velY, this`rect
      ensures State() == StepGravity(old(State()))
    {
      velY := velY + PLAYER_GRAVITY;
      rect := rect.(y := rect.y + velY);
    }

    /** Horizontal movement and the camera hand-off; returns the new `camera_scroll`. */
    method Move(keys: Keys, scroll: int) returns (newScroll: int)
      requires rect.w == PLAYER_W
      modifies this`rect, this`worldX, this`facingRight
      ensures (State(), newScroll) == StepMove(old(State()), keys, scroll)
    {
      newScroll := scroll;
      if !attacking && !casting {
        var oldX := rect.x;
        if keys.left {
          rect := rect.(x := rect.x - PLAYER_SPEED);
          facingRight := false;
          worldX := worldX - PLAYER_SPEED;
        }
        if keys.right {
          rect := rect.(x := rect.x + PLAYER_SPEED);
          facingRight := true;
          worldX := worldX + PLAYER_SPEED;
        }
        if rect.CenterX() > RIGHT_ZONE && scroll < MAX_SCROLL {
          var diff := rect.x - oldX;
          newScroll := Min(scroll + diff, MAX_SCROLL);
          rect := rect.(x := oldX);
        } else if rect.CenterX() < LEFT_ZONE && scroll > 0 {
          var diff := oldX - rect.x;
          newScroll := Max(scroll - diff, 0);
          rect := rect.(x := oldX);
        }
      }
    }

    method ClampToMap(scroll: int)
      modifies this`worldX, this`rect
      ensures State() == StepClamp(old(State()), scroll)
    {
      if worldX < 0 {
        worldX := 0;
        rect := rect.(x := worldX - scroll);
      } else if worldX > PLAYER_MAP_RIGHT {
        worldX := PLAYER_MAP_RIGHT;
        rect := rect.(x := worldX - scroll);
      }
    }

    method Dash(pressed: bool, scroll: int)
      modifies this`dashing, this`dashCooldown, this`mana, this`worldX, this`rect
      ensures State() == StepDash(old(State()), pressed, scroll)
    {
      if pressed && dashCooldown == 0 && !attacking && !casting && mana >= DASH_COST {
        dashing := true;
        dashCooldown := DASH_COOLDOWN;
        mana := mana - DASH_COST;
        DashShift(scroll);
      }
    }

    /** The dash's move: 30 units the facing way, kept inside the map, and the screen x resynced. */
    method DashShift(scroll: int)
      modifies this`worldX, this`rect
      ensures worldX == DashTarget(old(worldX), facingRight) && rect == old(rect).(x := worldX - scroll)
    {
      var target := worldX + (if facingRight then DASH_DISTANCE else -DASH_DISTANCE);
      if 0 <= target <= PLAYER_MAP_RIGHT {
        worldX := target;
      } else {
        worldX := if target < 0 then 0 else PLAYER_MAP_RIGHT;
      }
      rect := rect.(x := worldX - scroll);
    }

    /** Landing, tested against each surface in turn (the platforms' collision boxes, then the ground). */
    method Land(surfaces: seq<Rect>)
      modifies this`rect, this`velY
      ensures State() == StepLand(old(State()), surfaces)
    {
      var i := 0;
      while i < |surfaces|
        invariant 0 <= i <= |surfaces|
        invariant Fall(rect, velY) == LandAll(Fall(old(rect), old(velY)), surfaces[..i])
      {
        assert surfaces[..i + 1][..i] == surfaces[..i];
        if Overlaps(rect, surfaces[i]) && velY > 0 {
          rect := rect.WithBottom(surfaces[i].y);
          velY := 0;
        }
        i := i + 1;
      }
      assert surfaces[..i] == surfaces;
    }

    method Jump(pressed: bool)
      modifies this`velY
      ensures State() == StepJump(old(State()), pressed)
    {
      if pressed && velY == 0 {
        velY := JUMP_VELOCITY;
      }
    }

    /** `spritecollide(self, power_ups, True)` and the effect of each power-up taken. */
    method CollectPowerUps(pups: seq<PowerUp>) returns (remaining: seq<PowerUp>)
      modifies this`health, this`mana
      ensures (State(), remaining) == StepCollect(old(State()), pups)
    {
      remaining := [];
      var i := 0;
      while i < |pups|
        invariant 0 <= i <= |pups|
        invariant Collect(rect, old(health), old(mana), pups[..i]) == Pickup(health, mana, remaining)
      {
        assert pups[..i + 1][..i] == pups[..i];
        var pu := pups[i];
        if Overlaps(rect, pu.rect) {
          if pu.kind == HealthKind {
            health := Min(PLAYER_MAX_HEALTH, health + Value(pu.kind));
          } else {
            mana := MinReal(PLAYER_MAX_MANA, mana + Value(pu.kind) as real);
          }
        } else {
          remaining := remaining + [pu];
        }
        i := i + 1;
      }
      assert pups[..i] == pups;
    }

    /** The shield's timers: the cooldown counts down, and an active shield burns one tick of duration. */
    method TickShield()
      modifies this`shieldActive, this`shieldDuration, this`shieldCooldown
      ensures Shield(shieldActive, shieldDuration, shieldCooldown) ==
        ShieldTick(Shield(old(shieldActive), old(shieldDuration), old(shieldCooldown)))
    {
      if shieldCooldown > 0 {
        shieldCooldown := shieldCooldown - 1;
      }
      if shieldActive {
        shieldDuration := shieldDuration - 1;
        if shieldDuration <= 0 {
          shieldActive := false;
          shieldCooldown := SHIELD_COOLDOWN;
        }
      }
    }

    /** The shield's timers, then its activation. */
    method UpdateShield(pressed: bool)
      modifies this`shieldActive, this`shieldDuration, this`shieldCooldown, this`mana
      ensures State() == StepShield(old(State()), pressed)
    {
      TickShield();
      if pressed && !shieldActive && shieldCooldown == 0 && mana >= SHIELD_COST {
        shieldActive := true;
        shieldDuration := SHIELD_DURATION;
        mana := mana - SHIELD_COST;
      }
    }

    /** The steps of `update` before the attack key is read: `PlayerMotion`. */
    method Motion(keys: Keys, surfaces: seq<Rect>, scroll: int, ghost enemies: seq<Enemy>) returns (newScroll: int)
      requires rect.w == PLAYER_W
      modifies this
      ensures (State(), newScroll) == PlayerMotion(old(State()), keys, surfaces, scroll)
      ensures StatesOf(enemies) == old(StatesOf(enemies))
    {
      BeginTick(keys.left || keys.right);
      TickCooldowns();
      ApplyGravity();
      newScroll := Move(keys, scroll);
      ClampToMap(newScroll);
      Dash(keys.dash, newScroll);
      Land(surfaces);
      Jump(keys.jump);
    }

    /**
     * The attack and magic keys: at most one of the two is granted in a tick,
     * and a granted one strikes the enemies its box overlaps.
     */
    method UseAbilities(keys: Keys, enemies: seq<Enemy>, attackDrops: seq<Drop>, magicDrops: seq<Drop>)
      returns (dropped: seq<PowerUp>)
      requires |attackDrops| == |enemies| && |magicDrops| == |enemies| && Distinct(enemies)
      modifies this, (set e | e in enemies)`health, (set e | e in enemies)`isDead, (set e | e in enemies)`anim, (set e | e in enemies)`currentFrame
      ensures State() == StepCast(StepAttack(old(State()), keys.attack), keys.magic)
      ensures Strikes(old(State()), keys, old(StatesOf(enemies)), StatesOf(enemies), attackDrops, magicDrops, dropped)
    {
      ghost var p := State();
      ghost var before := StatesOf(enemies);
      var melee := AttackGate(keys.attack, enemies, attackDrops);
      ghost var between := StatesOf(enemies);
      var magic := MagicGate(keys.magic, enemies, magicDrops);
      dropped := melee + magic;
      if CanAttack(keys.attack, p.attackCooldown, p.casting, p.dashing) {
        assert magic == [] && StatesOf(enemies) == between;
        assert dropped == melee;
      } else {
        assert melee == [] && between == before;
        assert dropped == magic;
      }
    }

    /** The attack key: `attack` when it is granted. */
    method AttackGate(pressed: bool, enemies: seq<Enemy>, drops: seq<Drop>) returns (dropped: seq<PowerUp>)
      requires |drops| == |enemies| && Distinct(enemies)
      modifies this`attacking, this`attackCooldown, (set e | e in enemies)`health, (set e | e in enemies)`isDead, (set e | e in enemies)`anim, (set e | e in enemies)`currentFrame
      ensures State() == StepAttack(old(State()), pressed)
      ensures var granted := CanAttack(pressed, old(attackCooldown), old(casting), old(dashing));
        StatesOf(enemies) == (if granted then StrikeAll(old(StatesOf(enemies)), StrikeBox(State(), false), ATTACK_DAMAGE, drops)
                              else old(StatesOf(enemies))) &&
        dropped == (if granted then StrikeDrops(old(StatesOf(enemies)), StrikeBox(State(), false), ATTACK_DAMAGE, drops) else [])
    {
      dropped := [];
      if pressed && attackCooldown == 0 && !casting && !dashing {
        dropped := Attack(enemies, drops);
      }
    }

    /** The magic key: `cast_magic` and the mana it costs when it is granted. */
    method MagicGate(pressed: bool, enemies: seq<Enemy>, drops: seq<Drop>) returns (dropped: seq<PowerUp>)
      requires |drops| == |enemies| && Distinct(enemies)
      modifies this`casting, this`castCooldown, this`mana, (set e | e in enemies)`health, (set e | e in enemies)`isDead, (set e | e in enemies)`anim, (set e | e in enemies)`currentFrame
      ensures State() == StepCast(old(State()), pressed)
      ensures var granted := CanCast(pressed, old(castCooldown), old(attacking), old(dashing), old(mana));
        StatesOf(enemies) == (if granted then StrikeAll(old(StatesOf(enemies)), StrikeBox(State(), true), MAGIC_DAMAGE, drops)
                              else old(StatesOf(enemies))) &&
        dropped == (if granted then StrikeDrops(old(StatesOf(enemies)), StrikeBox(State(), true), MAGIC_DAMAGE, drops) else [])
    {
      dropped := [];
      if pressed && castCooldown == 0 && !attacking && !dashing && mana >= MAGIC_COST {
        mana := mana - MAGIC_COST;  // paid after the cast in `update`; the cast does not read mana
        dropped := CastMagic(enemies, drops);
      }
    }

    /**
     * `Player.update`.  Returns the new `camera_scroll`, the power-ups the
     * tick's hits dropped and the power-ups left after pickup.  The player
     * ends as `PlayerTick` says, given the power-ups present at pickup; the
     * enemies are struck by the melee or the magic box when that ability was
     * granted; and the dash trail gains the player's centre while dashing.
     */
    method Update(keys: Keys, surfaces: seq<Rect>, enemies: seq<Enemy>, scroll: int, pups: seq<PowerUp>,
                  attackDrops: seq<Drop>, magicDrops: seq<Drop>, fx: Effects.EffectManager)
      returns (newScroll: int, dropped: seq<PowerUp>, remaining: seq<PowerUp>)
      requires Valid() && |attackDrops| == |enemies| && |magicDrops| == |enemies| && Distinct(enemies)
      requires fx.Valid()
      modifies this, fx`trails, (set e | e in enemies)`health, (set e | e in enemies)`isDead, (set e | e in enemies)`anim, (set e | e in enemies)`currentFrame
      ensures PlayerOutcome(State(), newScroll, remaining) == PlayerTick(old(State()), keys, surfaces, scroll, pups + dropped)
      ensures Strikes(PlayerMotion(old(State()), keys, surfaces, scroll).0, keys,
                      old(StatesOf(enemies)), StatesOf(enemies), attackDrops, magicDrops, dropped)
      ensures fx.Valid()
      ensures fx.trails == (if dashing
        then Effects.WithTrailPoint(old(fx.trails), "player_dash", Effects.Point(rect.CenterX(), rect.CenterY()))
        else old(fx.trails))
    {
      newScroll := Motion(keys, surfaces, scroll, enemies);
      dropped := UseAbilities(keys, enemies, attackDrops, magicDrops);
      remaining := Finish(fx, pups + dropped, keys.shield, enemies);
    }

    /** The steps of `update` after the attacks: the dash trail, pickup and the shield. */
    method Finish(fx: Effects.EffectManager, pups: seq<PowerUp>, shieldPressed: bool, ghost enemies: seq<Enemy>)
      returns (remaining: seq<PowerUp>)
      requires fx.Valid()
      modifies fx`trails, this`health, this`mana, this`shieldActive, this`shieldDuration, this`shieldCooldown
      ensures StatesOf(enemies) == old(StatesOf(enemies))
      ensures fx.Valid()
      ensures fx.trails == (if dashing
        then Effects.WithTrailPoint(old(fx.trails), "player_dash", Effects.Point(rect.CenterX(), rect.CenterY()))
        else old(fx.trails))
      ensures var c := StepCollect(old(State()), pups);
        State() == StepShield(c.0, shieldPressed) && remaining == c.1
    {
      LeaveTrail(fx);
      remaining := Settle(pups, shieldPressed);
    }

    /** While dashing, the player's centre joins the `"player_dash"` trail. */
    method LeaveTrail(fx: Effects.EffectManager)
      requires fx.Valid()
      modifies fx`trails
      ensures fx.Valid()
      ensures fx.trails == (if dashing
        then Effects.WithTrailPoint(old(fx.trails), "player_dash", Effects.Point(rect.CenterX(), rect.CenterY()))
        else old(fx.trails))
    {
      if dashing {
        fx.UpdateTrail("player_dash", rect.CenterX(), rect.CenterY());
      }
    }

    /** The last steps of `update`: power-up pickup, then the shield. */
    method Settle(pups: seq<PowerUp>, shieldPressed: bool) returns (remaining: seq<PowerUp>)
      modifies this`health, this`mana, this`shieldActive, this`shieldDuration, this`shieldCooldown
      ensures var c := StepCollect(old(State()), pups);
        State() == StepShield(c.0, shieldPressed) && remaining == c.1
    {
      remaining := CollectPowerUps(pups);
      UpdateShield(shieldPressed);
    }
  }
}
