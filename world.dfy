/**
 * The level and the world-wide steps of the main loop: platforms, the
 * camera's placement of every sprite, the section indicator, removal of the
 * defeated enemies, the enemies' sweep over the group and `reset_game`.
 */
module World {
  import opened Numeric
  import opened Geometry
  import opened Config
  import opened Rules
  import opened Entities

  // ---------------------------------------------------------------------------
  // Platforms
  // ---------------------------------------------------------------------------

  /** The top-left corners of the eight platforms, in world coordinates. */
  const PLATFORM_POSITIONS: seq<(int, int)> :=
    [(200, 400), (450, 320), (700, 260), (950, 340), (1200, 290), (1450, 220), (1700, 320), (1950, 260)]

  /** The ground: the whole map wide, 64 px tall, along the bottom of the screen. */
  const GROUND: Rect := Rect(0, GROUND_Y, SECTION_WIDTH as nat, GROUND_H)

  /** The collision box of a platform drawn at `r`: 5 px in from its top and from its bottom. */
  function CollisionBox(r: Rect): (c: Rect)
    requires r.h >= 2 * COLLISION_INSET
    ensures c.x == r.x && c.w == r.w && c.Right() == r.Right()
    ensures c.y == r.y + COLLISION_INSET && c.Bottom() == r.Bottom() - COLLISION_INSET
  {
    Rect(r.x, r.y + COLLISION_INSET, r.w, r.h - 2 * COLLISION_INSET)
  }

  /** A platform's drawn rectangle, always 120 x 32. */
  type PlatformRect = r: Rect | r.w == PLATFORM_W && r.h == PLATFORM_H
    witness Rect(0, 0, PLATFORM_W, PLATFORM_H)

  /** A platform's collision box, always 120 x 22. */
  type BoxRect = r: Rect | r.w == PLATFORM_W && r.h == PLATFORM_H - 2 * COLLISION_INSET
    witness Rect(0, COLLISION_INSET, PLATFORM_W, PLATFORM_H - 2 * COLLISION_INSET)

  /** A platform: its drawn rectangle, its collision box and its world x. */
  class Platform {
    var rect: PlatformRect
    var collisionRect: BoxRect
    const initialX: int

    /** `Platform(x, y)`: 120 x 32 at top-left (x, y), its collision box inset 5 px top and bottom. */
    constructor (x: int, y: int)
      ensures rect == Rect(x, y, PLATFORM_W, PLATFORM_H) && initialX == x
      ensures collisionRect == CollisionBox(rect)
    {
      rect := Rect(x, y, PLATFORM_W, PLATFORM_H);
      collisionRect := Rect(x, y + COLLISION_INSET, PLATFORM_W, PLATFORM_H - 2 * COLLISION_INSET);
      initialX := x;
    }

    /** `Platform.update`: the collision box follows the drawn rectangle. */
    method Update()
      modifies this`collisionRect
      ensures collisionRect == CollisionBox(rect)
    {
      collisionRect := collisionRect.(x := rect.x, y := rect.y + COLLISION_INSET);
    }
  }

  /** The surfaces the player lands on, in the order the tick tests them: every collision box, then the ground. */
  function PlayerSurfaces(boxes: seq<Rect>, ground: Rect): (r: seq<Rect>)
    ensures |r| == |boxes| + 1 && r[..|boxes|] == boxes && r[|boxes|] == ground
  {
    boxes + [ground]
  }

  // ---------------------------------------------------------------------------
  // The camera
  // ---------------------------------------------------------------------------

  /** `rect.x = world_x - camera_scroll` for an enemy. */
  function PlaceEnemy(e: EnemyState, scroll: int): (r: EnemyState)
    ensures r.rect.x + scroll == r.worldX
    ensures r == e.(rect := r.rect) && r.rect.y == e.rect.y && r.rect.w == e.rect.w && r.rect.h == e.rect.h
  {
    e.(rect := e.rect.(x := e.worldX - scroll))
  }

  /** Every enemy placed on screen for `scroll`. */
  function PlaceEnemies(es: seq<EnemyState>, scroll: int): (r: seq<EnemyState>)
    ensures |r| == |es| && forall i :: 0 <= i < |es| ==> r[i] == PlaceEnemy(es[i], scroll)
  {
    seq(|es|, i requires 0 <= i < |es| => PlaceEnemy(es[i], scroll))
  }

  /** Placing is idempotent, and only the last scroll counts. */
  lemma PlaceEnemiesLastWins(es: seq<EnemyState>, s1: int, s2: int)
    ensures PlaceEnemies(PlaceEnemies(es, s1), s2) == PlaceEnemies(es, s2)
  {
    assert forall i :: 0 <= i < |es| ==> PlaceEnemy(PlaceEnemy(es[i], s1), s2) == PlaceEnemy(es[i], s2);
  }

  /** A power-up's `rect.centerx = initial_x - camera_scroll`. */
  function PlacePowerUp(p: PowerUp, scroll: int): (r: PowerUp)
    ensures r.rect.CenterX() + scroll == p.initialX
    ensures r == p.(rect := r.rect) && r.rect.y == p.rect.y && r.rect.w == p.rect.w && r.rect.h == p.rect.h
  {
    p.(rect := p.rect.WithCenterX(p.initialX - scroll))
  }

  /** Every power-up placed on screen for `scroll`. */
  function PlacePowerUps(ps: seq<PowerUp>, scroll: int): (r: seq<PowerUp>)
    ensures |r| == |ps| && forall i :: 0 <= i < |ps| ==> r[i] == PlacePowerUp(ps[i], scroll)
  {
    seq(|ps|, i requires 0 <= i < |ps| => PlacePowerUp(ps[i], scroll))
  }

  /**
   * A power-up records as its `initial_x` the screen x of the enemy that
   * dropped it, but is then placed as if that were a world x: it appears
   * shifted left by the scroll at the time of the drop.  For an enemy at
   * world x `w` dropping while the camera is at `scroll`, the power-up's
   * centre is drawn at world x `w + 96 - scroll` instead of `w + 96`.
   */
  lemma DroppedPowerUpDrifts(e: EnemyState, scroll: int, kind: PowerUpKind)
    requires e.rect.w == ENEMY_W && e.rect.x == e.worldX - scroll
    ensures var p := PlacePowerUp(NewPowerUp(e.rect.CenterX(), e.rect.CenterY(), kind), scroll);
      p.rect.CenterX() + scroll == e.worldX + ENEMY_W / 2 - scroll
  {
  }

  // ---------------------------------------------------------------------------
  // The section indicator
  // ---------------------------------------------------------------------------

  /** `check_section_cleared`: no enemy's world x lies in [start, start + 800] of the camera's section. */
  predicate SectionClear(scroll: int, xs: seq<int>)
  {
    var start := SectionIndex(scroll) * WIDTH;
    forall i :: 0 <= i < |xs| ==> !(start <= xs[i] <= start + WIDTH)
  }

  /** For a scroll in range, the camera's left edge lies in the section the indicator checks. */
  lemma SectionHoldsCamera(scroll: int)
    requires 0 <= scroll
    ensures SectionIndex(scroll) * WIDTH <= scroll < SectionIndex(scroll) * WIDTH + WIDTH
  {
  }

  /**
   * Both ends of a section are included, so an enemy exactly on the border
   * between two sections keeps the arrow hidden in both.
   */
  lemma BorderEnemyBlocksBoth(k: nat)
    ensures !SectionClear(k * WIDTH, [(k + 1) * WIDTH])
    ensures !SectionClear((k + 1) * WIDTH, [(k + 1) * WIDTH])
  {
    SectionFromStart(k);
    SectionFromStart(k + 1);
    assert [(k + 1) * WIDTH][0] == (k + 1) * WIDTH;
  }

  lemma SectionFromStart(k: nat)
    ensures SectionIndex(k * WIDTH) == k
  {
  }

  /** A scroll left of 0 truncates to section 0, so the arrow then looks at [0, 800]. */
  lemma NegativeScrollChecksFirstSection(scroll: int, xs: seq<int>)
    requires -WIDTH < scroll < 0
    ensures SectionClear(scroll, xs) <==> forall i :: 0 <= i < |xs| ==> !(0 <= xs[i] <= WIDTH)
  {
  }

  // ---------------------------------------------------------------------------
  // Removing the defeated enemies
  // ---------------------------------------------------------------------------

  /** The enemies with health left, in group order. */
  function Living(es: seq<EnemyState>): (r: seq<EnemyState>)
    ensures forall e :: e in r ==> e in es && e.health > 0
    ensures forall e :: e in es && e.health > 0 ==> e in r
  {
    if es == [] then []
    else if es[|es| - 1].health > 0 then Living(es[..|es| - 1]) + [es[|es| - 1]]
    else Living(es[..|es| - 1])
  }

  /** How many enemies have no health left. */
  function Fallen(es: seq<EnemyState>): nat
  {
    if es == [] then 0
    else Fallen(es[..|es| - 1]) + (if es[|es| - 1].health <= 0 then 1 else 0)
  }

  /** Every enemy is either kept or counted once. */
  lemma {:induction false} LivingAndFallen(es: seq<EnemyState>)
    ensures |Living(es)| + Fallen(es) == |es|
  {
    if es != [] {
      LivingAndFallen(es[..|es| - 1]);
    }
  }

  // ---------------------------------------------------------------------------
  // The enemies' sweep
  // ---------------------------------------------------------------------------

  /** The enemies after each has run its tick in group order, which of them removed themselves, and the player's health. */
  datatype Sweep = Sweep(states: seq<EnemyState>, killed: seq<bool>, playerHealth: int)

  /**
   * `for enemy in enemies: enemy.update(player, ground, platforms)`: each
   * enemy ticks against the player's health as the enemies before it left it.
   */
  function SweepEnemies(es: seq<EnemyState>, playerX: int, playerRect: Rect, health: int, ground: Rect,
                        platforms: seq<Rect>, scroll: int, variants: seq<AttackVariant>): (r: Sweep)
    requires |variants| == |es|
    ensures |r.states| == |es| && |r.killed| == |es|
    decreases |es|
  {
    if es == [] then Sweep([], [], health)
    else
      var n := |es| - 1;
      var prev := SweepEnemies(es[..n], playerX, playerRect, health, ground, platforms, scroll, variants[..n]);
      var o := EnemyTick(es[n], playerX, playerRect, prev.playerHealth, ground, platforms, scroll, variants[n]);
      Sweep(prev.states + [o.enemy], prev.killed + [o.killed], o.playerHealth)
  }

  /**
   * Each enemy's tick costs the player at most one hit of 10, whatever the
   * shield, and every enemy that was valid stays valid.
   */
  lemma {:induction false} SweepBounds(es: seq<EnemyState>, playerX: int, playerRect: Rect, health: int, ground: Rect,
                                       platforms: seq<Rect>, scroll: int, variants: seq<AttackVariant>)
    requires |variants| == |es|
    ensures var r := SweepEnemies(es, playerX, playerRect, health, ground, platforms, scroll, variants);
      health - ENEMY_DAMAGE * |es| <= r.playerHealth <= health &&
      forall i :: 0 <= i < |es| && ValidEnemy(es[i]) ==> ValidEnemy(r.states[i])
    decreases |es|
  {
    if es != [] {
      var n := |es| - 1;
      SweepBounds(es[..n], playerX, playerRect, health, ground, platforms, scroll, variants[..n]);
      var prev := SweepEnemies(es[..n], playerX, playerRect, health, ground, platforms, scroll, variants[..n]);
      var r := SweepEnemies(es, playerX, playerRect, health, ground, platforms, scroll, variants);
      forall i | 0 <= i < |es| && ValidEnemy(es[i])
        ensures ValidEnemy(r.states[i])
      {
        if i < n {
          assert es[..n][i] == es[i] && r.states[i] == prev.states[i];
        }
      }
    }
  }

  /** The elements of `xs` whose flag in `drop` is false, in order (the group after `kill()`). */
  function Kept<T>(xs: seq<T>, drop: seq<bool>): (r: seq<T>)
    requires |drop| == |xs|
    ensures |r| <= |xs| && forall x :: x in r ==> x in xs
    ensures (forall i :: 0 <= i < |drop| ==> !drop[i]) ==> r == xs
  {
    if xs == [] then []
    else
      var n := |xs| - 1;
      var prev := Kept(xs[..n], drop[..n]);
      assert forall x :: x in prev ==> x in xs by {
        forall x | x in prev ensures x in xs { assert x in xs[..n]; }
      }
      if drop[n] then prev else prev + [xs[n]]
  }

  // ---------------------------------------------------------------------------
  // reset_game
  // ---------------------------------------------------------------------------

  /**
   * `reset_game`'s effect on the player: full health and mana, back at world
   * x 100 with the rectangle centred on x 100 and standing at y 540.  Score,
   * cooldowns, velocity, shield and ability flags are left as they were.
   */
  function ResetPlayer(p: PlayerState): (q: PlayerState)
    ensures q.health == PLAYER_MAX_HEALTH && q.mana == PLAYER_MAX_MANA && q.worldX == RESET_X
    ensures q.rect.CenterX() == RESET_X && q.rect.Bottom() == RESET_BOTTOM
    ensures q == p.(health := q.health, mana := q.mana, worldX := q.worldX, rect := q.rect)
  {
    p.(health := PLAYER_MAX_HEALTH, mana := PLAYER_MAX_MANA, worldX := RESET_X,
       rect := p.rect.WithCenterX(RESET_X).WithBottom(RESET_BOTTOM))
  }

  /** Resetting twice is resetting once. */
  lemma ResetPlayerIdempotent(p: PlayerState)
    ensures ResetPlayer(ResetPlayer(p)) == ResetPlayer(p)
  {
  }

  /** A player in a steady state is valid again after a reset, however low its health had fallen. */
  lemma ResetRestoresValidity(p: PlayerState)
    requires Steady(p.(health := 0))
    ensures ValidPlayer(ResetPlayer(p))
  {
  }

  /**
   * The reset centres the rectangle on x 100 but sets the world x (the left
   * edge everywhere else) to 100: until the next placement the player is
   * drawn 50 px left of where the world puts it.
   */
  lemma ResetMisplacesRect(p: PlayerState)
    requires p.rect.w == PLAYER_W
    ensures ResetPlayer(p).rect.x == ResetPlayer(p).worldX - PLAYER_W / 2
  {
  }
}
