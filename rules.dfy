/**
 * The per-tick rules of the game, as pure functions over the values the
 * entities hold: cooldowns, mana, the animation clock, the camera hand-off,
 * map clamping, landing, the enemy's chase and hit tests, damage, the
 * shield's lifetime, power-up pickup and the spawner's pass.  The entity
 * classes apply these rules to their fields; the lemmas here state what the
 * rules promise over any number of ticks.
 */
module Rules {
  import opened Numeric
  import opened Geometry
  import opened Config

  // ---------------------------------------------------------------------------
  // Cooldowns
  // ---------------------------------------------------------------------------

  /** `if cd > 0: cd -= 1`. */
  function Decrement(cd: int): (r: int)
    ensures r <= cd && (r == cd <==> cd <= 0)
    ensures cd >= 0 ==> r >= 0
  {
    if cd > 0 then cd - 1 else cd
  }

  /**
   * One tick of a cooldown counter and the ability flag it guards
   * (`attack_cooldown`/`attacking`, `cast_cooldown`/`casting`,
   * `dash_cooldown`/`dashing`): the counter counts down while positive and
   * the flag is cleared on the tick the counter reaches zero.
   */
  function CooldownStep(cd: int, active: bool): (r: (int, bool))
    ensures r.0 == Decrement(cd)
    ensures r.1 <==> active && cd != 1
  {
    if cd > 0 then (cd - 1, if cd - 1 == 0 then false else active) else (cd, active)
  }

  /** `n` consecutive ticks of a cooldown. */
  function Countdown(cd: int, active: bool, n: nat): (int, bool)
  {
    if n == 0 then (cd, active) else var s := CooldownStep(cd, active); Countdown(s.0, s.1, n - 1)
  }

  /**
   * An ability started with cooldown `cd` stays flagged for exactly `cd`
   * ticks: after `n <= cd` ticks the counter is `cd - n`, and the flag is
   * still set precisely while the counter is positive.
   */
  lemma {:induction false} CountdownClearsAtZero(cd: int, n: nat)
    requires 0 < cd && n <= cd
    ensures Countdown(cd, true, n) == (cd - n, n < cd)
  {
    if n > 0 {
      if cd == 1 {
        assert Countdown(cd, true, n) == Countdown(0, false, n - 1);
      } else {
        CountdownClearsAtZero(cd - 1, n - 1);
      }
    }
  }

  /** An expired cooldown stays at zero with its flag clear. */
  lemma {:induction false} CountdownStaysIdle(n: nat)
    ensures Countdown(0, false, n) == (0, false)
  {
    if n > 0 {
      CountdownStaysIdle(n - 1);
    }
  }

  // ---------------------------------------------------------------------------
  // Mana and ability gates
  // ---------------------------------------------------------------------------

  /** Mana regeneration: `mana_regen` per tick, capped at the maximum, none when already full. */
  function RegenMana(mana: real): (r: real)
    ensures mana < PLAYER_MAX_MANA ==> mana < r <= PLAYER_MAX_MANA
    ensures mana >= PLAYER_MAX_MANA ==> r == mana
  {
    if mana < PLAYER_MAX_MANA then MinReal(PLAYER_MAX_MANA, mana + MANA_REGEN) else mana
  }

  predicate CanDash(pressed: bool, dashCooldown: int, attacking: bool, casting: bool, mana: real)
  {
    pressed && dashCooldown == 0 && !attacking && !casting && mana >= DASH_COST
  }

  predicate CanAttack(pressed: bool, attackCooldown: int, casting: bool, dashing: bool)
  {
    pressed && attackCooldown == 0 && !casting && !dashing
  }

  predicate CanCast(pressed: bool, castCooldown: int, attacking: bool, dashing: bool, mana: real)
  {
    pressed && castCooldown == 0 && !attacking && !dashing && mana >= MAGIC_COST
  }

  predicate CanShield(pressed: bool, active: bool, shieldCooldown: int, mana: real)
  {
    pressed && !active && shieldCooldown == 0 && mana >= SHIELD_COST
  }

  /**
   * Below 30 mana a cast is refused whatever else holds; from 20 mana on an
   * otherwise free dash is allowed, so between the two only the dash is.
   */
  lemma MagicNeedsThirtyMana(castCooldown: int, attacking: bool, dashing: bool, mana: real)
    ensures mana < MAGIC_COST ==> !CanCast(true, castCooldown, attacking, dashing, mana)
    ensures CanDash(true, 0, false, false, mana) <==> mana >= DASH_COST
  {
  }

  // ---------------------------------------------------------------------------
  // Animation
  // ---------------------------------------------------------------------------

  /** The player's animation states (`state`); `Death` is only ever written to `current_state`. */
  datatype PlayerAnim = Idle | Running | Jumping | Attacking | Magic | Dash | Death

  /** Frames per player animation in the sheet's configuration. */
  function PlayerFrames(s: PlayerAnim): (n: int)
    ensures n > 0
  {
    match s
    case Idle => 4
    case Running => 6
    case Jumping => 2
    case Attacking => 4
    case Magic => 4
    case Dash => 3
    case Death => 4
  }

  /** Milliseconds per frame of each player animation. */
  function PlayerDuration(s: PlayerAnim): (ms: int)
    ensures ms > 0
  {
    match s
    case Idle => 120
    case Running => 80
    case Jumping => 100
    case Attacking => 80
    case Magic => 100
    case Dash => 80
    case Death => 150
  }

  /** The state picked each tick: dash, then attack, then cast, then airborne, then running, else idle. */
  function PickState(dashing: bool, attacking: bool, casting: bool, velY: int, moving: bool): PlayerAnim
  {
    if dashing then Dash
    else if attacking then Attacking
    else if casting then Magic
    else if velY != 0 then Jumping
    else if moving then Running
    else Idle
  }

  /** With at most one ability flag set, the picked state names the active ability exactly. */
  lemma PickStateNamesAbility(dashing: bool, attacking: bool, casting: bool, velY: int, moving: bool)
    requires !(dashing && attacking) && !(dashing && casting) && !(attacking && casting)
    ensures PickState(dashing, attacking, casting, velY, moving) == Dash <==> dashing
    ensures PickState(dashing, attacking, casting, velY, moving) == Attacking <==> attacking
    ensures PickState(dashing, attacking, casting, velY, moving) == Magic <==> casting
    ensures PickState(dashing, attacking, casting, velY, moving) == Idle <==>
      !dashing && !attacking && !casting && velY == 0 && !moving
  {
  }

  /**
   * One tick of the animation clock: the timer counts ticks, and when it
   * reaches `duration/1000*60` (compared here as `timer*1000 >= duration*60`)
   * it resets and the frame index advances modulo the frame count.
   */
  function AdvanceAnimation(timer: int, frame: int, durationMs: int, frameCount: int): (r: (int, int))
    requires frameCount > 0
    ensures 0 <= frame < frameCount ==> 0 <= r.1 < frameCount
    ensures r.1 == frame ==> r.0 == timer + 1 || r.0 == 0
    ensures r.0 == 0 || r.0 == timer + 1
    ensures r.0 != timer + 1 ==> 0 <= r.1 < frameCount && r.1 == (frame + 1) % frameCount
  {
    var t := timer + 1;
    if t * 1000 >= durationMs * 60 then (0, (frame + 1) % frameCount) else (t, frame)
  }

  /** `n` ticks of the animation clock. */
  function Animate(timer: int, frame: int, durationMs: int, frameCount: int, n: nat): (int, int)
    requires frameCount > 0
    decreases n
  {
    if n == 0 then (timer, frame)
    else
      var s := AdvanceAnimation(timer, frame, durationMs, frameCount);
      Animate(s.0, s.1, durationMs, frameCount, n - 1)
  }

  /** Ticks per frame: the least `t` with `t * 1000 >= duration * 60`. */
  function Period(durationMs: nat): (p: nat)
    ensures p * 1000 >= durationMs * 60
    ensures p > 0 ==> (p - 1) * 1000 < durationMs * 60
  {
    (durationMs * 60 + 999) / 1000
  }

  /** From a fresh timer the frame holds for the first `Period(d) - 1` ticks, the timer counting them. */
  lemma {:induction false} AnimationHolds(frame: int, durationMs: nat, frameCount: int, n: nat)
    requires frameCount > 0 && n < Period(durationMs)
    ensures Animate(0, frame, durationMs, frameCount, n) == (n, frame)
  {
    if n > 0 {
      AnimationHolds(frame, durationMs, frameCount, n - 1);
      AnimateSplit(0, frame, durationMs, frameCount, n - 1);
    }
  }

  /** ... and on tick `Period(d)` the timer resets and the frame advances, wrapping after the last one. */
  lemma AnimationAdvances(frame: int, durationMs: nat, frameCount: int)
    requires frameCount > 0 && durationMs > 0
    ensures Animate(0, frame, durationMs, frameCount, Period(durationMs)) == (0, (frame + 1) % frameCount)
  {
    AnimationHolds(frame, durationMs, frameCount, Period(durationMs) - 1);
    AnimateSplit(0, frame, durationMs, frameCount, Period(durationMs) - 1);
  }

  lemma AnimateSplit(timer: int, frame: int, durationMs: int, frameCount: int, n: nat)
    requires frameCount > 0
    ensures var s := Animate(timer, frame, durationMs, frameCount, n);
      Animate(timer, frame, durationMs, frameCount, n + 1)
      == (var t := AdvanceAnimation(s.0, s.1, durationMs, frameCount); (t.0, t.1))
    decreases n
  {
    if n > 0 {
      var s := AdvanceAnimation(timer, frame, durationMs, frameCount);
      AnimateSplit(s.0, s.1, durationMs, frameCount, n - 1);
    }
  }

  // ---------------------------------------------------------------------------
  // Horizontal movement, camera hand-off and map bounds
  // ---------------------------------------------------------------------------

  /** The player's screen x and the camera scroll after the 30 %/70 % hand-off. */
  datatype View = View(rectX: int, scroll: int)

  /**
   * The camera hand-off after a horizontal step from screen x `oldX` to
   * `movedX`: right of 70 % of the screen (while the camera can still
   * scroll right) the step goes into the scroll, capped at MAX_SCROLL; left
   * of 30 % (while scrolled) it comes out of the scroll, floored at 0; in
   * both cases the rectangle stays where it was.
   */
  function CameraHandOff(oldX: int, movedX: int, scroll: int): (v: View)
    ensures v.rectX == movedX || v.rectX == oldX
    ensures v.scroll != scroll ==> v.rectX == oldX
    ensures movedX + PLAYER_W / 2 > RIGHT_ZONE && scroll < MAX_SCROLL ==> v.rectX == oldX && v.scroll <= MAX_SCROLL
    ensures (!(movedX + PLAYER_W / 2 > RIGHT_ZONE && scroll < MAX_SCROLL) &&
             movedX + PLAYER_W / 2 < LEFT_ZONE && scroll > 0) ==> v.rectX == oldX && v.scroll >= 0
  {
    var centerX := movedX + PLAYER_W / 2;
    if centerX > RIGHT_ZONE && scroll < MAX_SCROLL then
      View(oldX, Min(scroll + (movedX - oldX), MAX_SCROLL))
    else if centerX < LEFT_ZONE && scroll > 0 then
      View(oldX, Max(scroll - (oldX - movedX), 0))
    else
      View(movedX, scroll)
  }

  /**
   * Unless the cap or the floor cuts in, the hand-off keeps screen x plus
   * scroll unchanged, so an entity drawn at `world_x - camera_scroll` stays
   * put on screen relative to the world.
   */
  lemma HandOffKeepsWorldOffset(oldX: int, movedX: int, scroll: int)
    requires 0 <= scroll + (movedX - oldX) <= MAX_SCROLL
    ensures CameraHandOff(oldX, movedX, scroll).rectX + CameraHandOff(oldX, movedX, scroll).scroll == movedX + scroll
  {
  }

  /**
   * Moving right never drives the scroll below 0 and moving left never past
   * MAX_SCROLL.
   */
  lemma HandOffBoundedTowardTravel(oldX: int, movedX: int, scroll: int)
    requires 0 <= scroll <= MAX_SCROLL
    ensures movedX >= oldX ==> CameraHandOff(oldX, movedX, scroll).scroll >= 0
    ensures movedX <= oldX ==> CameraHandOff(oldX, movedX, scroll).scroll <= MAX_SCROLL
  {
  }

  /**
   * The other two directions are not guarded: a leftward step right of the
   * 70 % line at scroll 0 makes the scroll negative, and a rightward step
   * left of the 30 % line at MAX_SCROLL pushes it past MAX_SCROLL.
   */
  lemma HandOffLeavesRange()
    ensures CameraHandOff(530, 520, 0) == View(530, -10)
    ensures CameraHandOff(160, 170, MAX_SCROLL) == View(160, MAX_SCROLL + 10)
  {
  }

  /** Clamping a world x into the map: `if x < left: left elif x > right: right`. */
  function ClampX(x: int, right: int): (r: int)
    requires 0 <= right
    ensures 0 <= r <= right
    ensures 0 <= x <= right ==> r == x
    ensures x < 0 ==> r == 0
    ensures x > right ==> r == right
  {
    if x < 0 then 0 else if x > right then right else x
  }

  /** The dash teleport: `DASH_DISTANCE` in the facing direction, clamped into the map. */
  function DashTarget(x: int, facingRight: bool): (r: int)
    ensures 0 <= r <= PLAYER_MAP_RIGHT
    ensures 0 <= x <= PLAYER_MAP_RIGHT && facingRight ==> x <= r <= x + DASH_DISTANCE
    ensures 0 <= x <= PLAYER_MAP_RIGHT && !facingRight ==> x - DASH_DISTANCE <= r <= x
    ensures 0 <= x + (if facingRight then DASH_DISTANCE else -DASH_DISTANCE) <= PLAYER_MAP_RIGHT ==>
      r == x + (if facingRight then DASH_DISTANCE else -DASH_DISTANCE)
  {
    ClampX(x + (if facingRight then DASH_DISTANCE else -DASH_DISTANCE), PLAYER_MAP_RIGHT)
  }

  // ---------------------------------------------------------------------------
  // Vertical movement and landing
  // ---------------------------------------------------------------------------

  /** A player's rectangle and vertical velocity. */
  datatype Fall = Fall(rect: Rect, velY: int)

  /** Landing on one surface: falling and overlapping snaps the bottom to its top and stops the fall. */
  function LandOn(f: Fall, surface: Rect): Fall
  {
    if Overlaps(f.rect, surface) && f.velY > 0 then Fall(f.rect.WithBottom(surface.y), 0) else f
  }

  /** Landing tested against each surface in turn. */
  function LandAll(f: Fall, surfaces: seq<Rect>): Fall
    decreases |surfaces|
  {
    if surfaces == [] then f else LandOn(LandAll(f, surfaces[..|surfaces| - 1]), surfaces[|surfaces| - 1])
  }

  /**
   * Landing only ever happens while falling, only moves the rectangle
   * vertically, and leaves it standing on the top of one of the surfaces.
   */
  lemma {:induction false} LandAllSnapsToSurface(f: Fall, surfaces: seq<Rect>)
    ensures var g := LandAll(f, surfaces);
      g.rect.x == f.rect.x && g.rect.w == f.rect.w && g.rect.h == f.rect.h &&
      (g == f || (f.velY > 0 && g.velY == 0 && exists k :: 0 <= k < |surfaces| && g.rect.Bottom() == surfaces[k].y))
    decreases |surfaces|
  {
    if surfaces != [] {
      var n := |surfaces| - 1;
      LandAllSnapsToSurface(f, surfaces[..n]);
      var g := LandAll(f, surfaces[..n]);
      if g != f {
        var k :| 0 <= k < n && g.rect.Bottom() == surfaces[..n][k].y;
        assert surfaces[..n][k] == surfaces[k];
      }
    }
  }

  /** A falling rectangle that overlaps any of the surfaces (before landing) does land. */
  lemma {:induction false} LandAllLandsOnOverlap(f: Fall, surfaces: seq<Rect>, k: nat)
    requires f.velY > 0 && k < |surfaces| && Overlaps(f.rect, surfaces[k])
    ensures LandAll(f, surfaces).velY == 0
    decreases |surfaces|
  {
    var n := |surfaces| - 1;
    if k < n {
      assert surfaces[..n][k] == surfaces[k];
      LandAllLandsOnOverlap(f, surfaces[..n], k);
    } else {
      LandAllSnapsToSurface(f, surfaces[..n]);
    }
  }

  /** An enemy's rectangle and vertical velocity (its gravity is fractional). */
  datatype EnemyFall = EnemyFall(rect: Rect, velY: real)

  /** The enemy's ground test: any overlap snaps it onto the ground, whatever its velocity. */
  function GroundContact(f: EnemyFall, ground: Rect): EnemyFall
  {
    if Overlaps(f.rect, ground) then EnemyFall(f.rect.WithBottom(ground.y), 0.0) else f
  }

  /** The enemy's platform test: landing when falling, a head bump (snap under the platform) when rising. */
  function Bump(f: EnemyFall, platform: Rect): EnemyFall
  {
    if !Overlaps(f.rect, platform) then f
    else if f.velY > 0.0 then EnemyFall(f.rect.WithBottom(platform.y), 0.0)
    else if f.velY < 0.0 then EnemyFall(f.rect.(y := platform.Bottom()), 0.0)
    else f
  }

  function BumpAll(f: EnemyFall, platforms: seq<Rect>): EnemyFall
    decreases |platforms|
  {
    if platforms == [] then f else Bump(BumpAll(f, platforms[..|platforms| - 1]), platforms[|platforms| - 1])
  }

  /**
   * Platform resolution only moves the enemy vertically, and either leaves
   * it as it was or stops it flush against the top or the underside of a
   * platform.
   */
  lemma {:induction false} BumpAllSnapsToPlatform(f: EnemyFall, platforms: seq<Rect>)
    ensures var g := BumpAll(f, platforms);
      g.rect.x == f.rect.x && g.rect.w == f.rect.w && g.rect.h == f.rect.h &&
      (g == f || (g.velY == 0.0 &&
        exists k :: 0 <= k < |platforms| && (g.rect.Bottom() == platforms[k].y || g.rect.y == platforms[k].Bottom())))
    decreases |platforms|
  {
    if platforms != [] {
      var n := |platforms| - 1;
      BumpAllSnapsToPlatform(f, platforms[..n]);
      var g := BumpAll(f, platforms[..n]);
      if g != f {
        var k :| 0 <= k < n && (g.rect.Bottom() == platforms[..n][k].y || g.rect.y == platforms[..n][k].Bottom());
        assert platforms[..n][k] == platforms[k];
      }
    }
  }

  // ---------------------------------------------------------------------------
  // Enemy behaviour
  // ---------------------------------------------------------------------------

  /** The enemy attacks when the player's world x is within range and its cooldown has run out. */
  predicate InAttackRange(enemyX: int, playerX: int, cooldown: int)
  {
    Abs(enemyX - playerX) < ATTACK_RANGE && cooldown == 0
  }

  /** The stricter screen-space test deciding whether an attack actually hurts the player. */
  predicate HitLands(enemyRect: Rect, playerRect: Rect)
  {
    Abs(enemyRect.CenterX() - playerRect.CenterX()) < ATTACK_RANGE &&
    Abs(enemyRect.CenterY() - playerRect.CenterY()) < HIT_HEIGHT
  }

  /**
   * A witness that an attack can be triggered and still miss: an enemy 50
   * pixels to the side but on a platform 266 pixels above the player is in
   * attack range, yet the hit test, which also bounds the vertical distance,
   * fails.
   */
  lemma AttackCanMiss()
    ensures InAttackRange(450, 500, 0)
    ensures !HitLands(Rect(450, 200, ENEMY_W, ENEMY_H), Rect(500, 466, PLAYER_W, PLAYER_H))
  {
  }

  /**
   * One chase step toward the player's world x, with the direction taken.
   * A step that would leave the map is rejected, not clamped: the enemy then
   * stays where it is.
   */
  function ChaseStep(x: int, playerX: int): (r: (int, int))
    ensures r.1 == (if x < playerX then 1 else -1)
    ensures r.0 == x + ENEMY_SPEED * r.1 || r.0 == x
    ensures r.0 == x <==> (r.1 == 1 && x + ENEMY_SPEED > ENEMY_MAP_RIGHT) || (r.1 == -1 && x - ENEMY_SPEED < 0)
    ensures 0 <= x <= ENEMY_MAP_RIGHT ==> 0 <= r.0 <= ENEMY_MAP_RIGHT
  {
    if x < playerX then
      (if x + ENEMY_SPEED <= ENEMY_MAP_RIGHT then x + ENEMY_SPEED else x, 1)
    else
      (if x - ENEMY_SPEED >= 0 then x - ENEMY_SPEED else x, -1)
  }

  // ---------------------------------------------------------------------------
  // Damage and the shield
  // ---------------------------------------------------------------------------

  /** The damage taken: `int(damage * 0.5)` under the shield, the full amount otherwise. */
  function ShieldedDamage(damage: nat, shielded: bool): (r: nat)
    ensures !shielded ==> r == damage
    ensures shielded ==> r == damage / 2
  {
    if shielded then Trunc(damage as real * 0.5) else damage
  }

  /** Health after a hit, floored at 0 (`take_damage` of both the player and the enemy). */
  function DamagedHealth(health: int, damage: int): (r: int)
    ensures r >= 0
    ensures health - damage > 0 ==> r == health - damage
    ensures health - damage <= 0 ==> r == 0
  {
    if health - damage <= 0 then 0 else health - damage
  }

  /**
   * For every health and damage, a shielded hit costs half the damage
   * (rounded down) while health remains, and never leaves less health than
   * the same hit without the shield.
   */
  lemma ShieldHalvesHit(health: int, damage: nat)
    ensures health > damage / 2 ==> DamagedHealth(health, ShieldedDamage(damage, true)) == health - damage / 2
    ensures DamagedHealth(health, ShieldedDamage(damage, true)) >= DamagedHealth(health, ShieldedDamage(damage, false))
  {
  }

  /** Health after `n` successive hits of `damage`, each one through `DamagedHealth`. */
  function HealthAfterHits(health: int, damage: nat, n: nat): int
  {
    if n == 0 then health else DamagedHealth(HealthAfterHits(health, damage, n - 1), damage)
  }

  /** From non-negative health, `n` hits leave what is left of `n * damage`, floored at 0. */
  lemma {:induction false} HealthAfterHitsFloor(health: int, damage: nat, n: nat)
    requires health >= 0
    ensures HealthAfterHits(health, damage, n) == Max(0, health - n * damage)
  {
    if n > 0 {
      HealthAfterHitsFloor(health, damage, n - 1);
      assert n * damage == (n - 1) * damage + damage;
    }
  }

  /** A fresh enemy falls exactly on the fourth melee hit: three leave it standing, four do not. */
  lemma EnemyFallsOnFourthHit(n: nat)
    ensures HealthAfterHits(ENEMY_MAX_HEALTH, ATTACK_DAMAGE, n) == 0 <==> n >= 4
  {
    HealthAfterHitsFloor(ENEMY_MAX_HEALTH, ATTACK_DAMAGE, n);
  }

  /** The magic shield's state: active flag, remaining duration and cooldown. */
  datatype Shield = Shield(active: bool, duration: int, cooldown: int)

  /** One tick of the shield: the cooldown counts down; an active shield burns duration and expires into a 90-tick cooldown. */
  function ShieldTick(s: Shield): (r: Shield)
    ensures r.cooldown == (if s.active && s.duration - 1 <= 0 then SHIELD_COOLDOWN else Decrement(s.cooldown))
    ensures r.active <==> s.active && s.duration > 1
    ensures s.active ==> r.duration == s.duration - 1
    ensures !s.active ==> r.duration == s.duration
  {
    var cd := Decrement(s.cooldown);
    if s.active then
      var d := s.duration - 1;
      if d <= 0 then Shield(false, d, SHIELD_COOLDOWN) else Shield(true, d, cd)
    else Shield(false, s.duration, cd)
  }

  function ShieldTicks(s: Shield, n: nat): Shield
    decreases n
  {
    if n == 0 then s else ShieldTicks(ShieldTick(s), n - 1)
  }

  /** A shield switched on with duration `d` stays on for `d` ticks and then goes into its 90-tick cooldown. */
  lemma {:induction false} ShieldLastsItsDuration(d: int, n: nat)
    requires 0 < n <= d
    ensures ShieldTicks(Shield(true, d, 0), n) ==
      if n < d then Shield(true, d - n, 0) else Shield(false, 0, SHIELD_COOLDOWN)
  {
    if d == 1 {
      assert ShieldTicks(Shield(true, d, 0), n) == ShieldTicks(Shield(false, 0, SHIELD_COOLDOWN), 0);
    } else if n > 1 {
      ShieldLastsItsDuration(d - 1, n - 1);
    }
  }

  /** After expiry the cooldown counts down one per tick, keeping the shield off. */
  lemma {:induction false} ShieldCoolsDown(duration: int, cd: nat, n: nat)
    requires n <= cd
    ensures ShieldTicks(Shield(false, duration, cd), n) == Shield(false, duration, cd - n)
  {
    if n > 0 {
      ShieldCoolsDown(duration, cd - 1, n - 1);
    }
  }

  // ---------------------------------------------------------------------------
  // Power-ups
  // ---------------------------------------------------------------------------

  /** The two power-up kinds (`"vida"` and `"mana"`). */
  datatype PowerUpKind = HealthKind | ManaKind

  /** A dropped power-up: its kind, its 24x24 rectangle and the x it was dropped at. */
  datatype PowerUp = PowerUp(kind: PowerUpKind, rect: Rect, initialX: int, initialY: int)

  /** What a power-up restores (`valor`). */
  function Value(kind: PowerUpKind): (v: int)
    ensures v > 0
  {
    if kind == HealthKind then HEALTH_POWER_UP_VALUE else MANA_POWER_UP_VALUE
  }

  /** A power-up centred at (cx, cy). */
  function NewPowerUp(cx: int, cy: int, kind: PowerUpKind): (p: PowerUp)
    ensures p.kind == kind && p.rect.CenterX() == cx && p.rect.CenterY() == cy
    ensures p.rect.w == POWER_UP_SIZE && p.rect.h == POWER_UP_SIZE && p.initialX == cx
  {
    PowerUp(kind, Rect(cx - POWER_UP_SIZE / 2, cy - POWER_UP_SIZE / 2, POWER_UP_SIZE, POWER_UP_SIZE), cx, cy)
  }

  /** Health, mana and the power-ups left after the pickup pass. */
  datatype Pickup = Pickup(health: int, mana: real, remaining: seq<PowerUp>)

  /** `spritecollide(player, power_ups, True)`: every touched power-up is applied, clamped, and removed. */
  function Collect(body: Rect, health: int, mana: real, pups: seq<PowerUp>): Pickup
    decreases |pups|
  {
    if pups == [] then Pickup(health, mana, [])
    else
      var before := Collect(body, health, mana, pups[..|pups| - 1]);
      var p := pups[|pups| - 1];
      if !Overlaps(body, p.rect) then Pickup(before.health, before.mana, before.remaining + [p])
      else if p.kind == HealthKind then
        Pickup(Min(PLAYER_MAX_HEALTH, before.health + Value(p.kind)), before.mana, before.remaining)
      else
        Pickup(before.health, MinReal(PLAYER_MAX_MANA, before.mana + Value(p.kind) as real), before.remaining)
  }

  /** Pickup never lowers health or mana and never raises them above their maxima. */
  lemma {:induction false} CollectStaysBounded(body: Rect, health: int, mana: real, pups: seq<PowerUp>)
    requires health <= PLAYER_MAX_HEALTH && mana <= PLAYER_MAX_MANA
    ensures health <= Collect(body, health, mana, pups).health <= PLAYER_MAX_HEALTH
    ensures mana <= Collect(body, health, mana, pups).mana <= PLAYER_MAX_MANA
    decreases |pups|
  {
    if pups != [] {
      CollectStaysBounded(body, health, mana, pups[..|pups| - 1]);
    }
  }

  /** Exactly the power-ups the player touches are removed; the others stay, in order. */
  lemma {:induction false} CollectRemovesTouched(body: Rect, health: int, mana: real, pups: seq<PowerUp>)
    ensures forall p :: p in Collect(body, health, mana, pups).remaining ==> p in pups && !Overlaps(body, p.rect)
    ensures forall i :: 0 <= i < |pups| && !Overlaps(body, pups[i].rect) ==>
      pups[i] in Collect(body, health, mana, pups).remaining
    decreases |pups|
  {
    if pups != [] {
      var n := |pups| - 1;
      CollectRemovesTouched(body, health, mana, pups[..n]);
      forall i | 0 <= i < n
        ensures pups[i] == pups[..n][i]
      {
      }
    }
  }

  /** A second pickup pass over what is left applies nothing: each power-up takes effect at most once. */
  lemma CollectIsIdempotent(body: Rect, health: int, mana: real, pups: seq<PowerUp>)
    ensures var r := Collect(body, health, mana, pups);
      Collect(body, r.health, r.mana, r.remaining) == r
  {
    var r := Collect(body, health, mana, pups);
    CollectRemovesTouched(body, health, mana, pups);
    CollectUntouched(body, r.health, r.mana, r.remaining);
  }

  lemma {:induction false} CollectUntouched(body: Rect, health: int, mana: real, pups: seq<PowerUp>)
    requires forall p :: p in pups ==> !Overlaps(body, p.rect)
    ensures Collect(body, health, mana, pups) == Pickup(health, mana, pups)
    decreases |pups|
  {
    if pups != [] {
      var n := |pups| - 1;
      assert forall p :: p in pups[..n] ==> p in pups;
      CollectUntouched(body, health, mana, pups[..n]);
      assert pups[..n] + [pups[n]] == pups;
    }
  }

  // ---------------------------------------------------------------------------
  // The player's melee and magic boxes
  // ---------------------------------------------------------------------------

  /** The attack box: a `w` x `h` rectangle beside the body on the facing side, vertically centred on it. */
  function AttackBox(body: Rect, facingRight: bool, w: nat, h: nat): (r: Rect)
    ensures r.w == w && r.h == h && r.CenterY() == body.CenterY()
    ensures facingRight ==> r.x == body.Right()
    ensures !facingRight ==> r.Right() == body.x
  {
    Rect(if facingRight then body.Right() else body.x - w, body.CenterY() - h / 2, w, h)
  }

  // ---------------------------------------------------------------------------
  // The section indicator
  // ---------------------------------------------------------------------------

  /** `int(camera_scroll / WIDTH)`: the section the camera is in (truncating toward zero). */
  function SectionIndex(scroll: int): (k: int)
    ensures scroll >= 0 ==> k == scroll / WIDTH
    ensures -WIDTH < scroll < 0 ==> k == 0
  {
    Trunc(scroll as real / WIDTH as real)
  }
}
