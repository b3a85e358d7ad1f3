/**
 * The game's tuning constants, with the floating-point products the source
 * computes from its sprite scale already evaluated (they are all integral),
 * for the case in which every sprite sheet loads.
 */
module Config {

  // Screen and map
  const WIDTH: int := 800
  const HEIGHT: int := 600
  const SECTION_WIDTH: int := 2400          // WIDTH * 3
  const MAX_SCROLL: int := 1600             // SECTION_WIDTH - WIDTH
  const RIGHT_ZONE: int := 560              // WIDTH * 0.7
  const LEFT_ZONE: int := 240               // WIDTH * 0.3

  // Player (frame 50x37 at scale 2.0)
  const PLAYER_W: nat := 100
  const PLAYER_H: nat := 74
  const PLAYER_MAP_RIGHT: int := 2300       // SECTION_WIDTH - rect.width
  const PLAYER_SPEED: int := 10             // 5 * scale
  const PLAYER_GRAVITY: int := 1            // 0.5 * scale
  const JUMP_VELOCITY: int := -20           // -10 * scale
  const DASH_DISTANCE: int := 30            // 15 * scale
  const PLAYER_MAX_HEALTH: int := 150
  const PLAYER_MAX_MANA: real := 120.0
  const MANA_REGEN: real := 0.15
  const MAGIC_COST: real := 30.0
  const DASH_COST: real := 20.0
  const SHIELD_COST: real := 35.0
  const ATTACK_COOLDOWN: int := 30
  const CAST_COOLDOWN: int := 45
  const DASH_COOLDOWN: int := 45
  const SHIELD_DURATION: int := 600
  const SHIELD_COOLDOWN: int := 90
  const ATTACK_DAMAGE: nat := 30
  const MAGIC_DAMAGE: nat := 45
  const ATTACK_W: nat := 140                // int(70 * scale)
  const ATTACK_H: nat := 100                // int(50 * scale)
  const MAGIC_W: nat := 200                 // int(100 * scale)
  const MAGIC_H: nat := 160                 // int(80 * scale)
  const RESET_X: int := 100
  const RESET_BOTTOM: int := 540            // HEIGHT - 60

  // Enemy (per-state sheets of 128x128 frames at scale 1.5)
  const ENEMY_W: nat := 192
  const ENEMY_H: nat := 192
  const ENEMY_MAP_RIGHT: int := 2304        // SECTION_WIDTH - int(64 * 1.5)
  const ENEMY_SPEED: int := 3
  const ENEMY_GRAVITY: real := 0.8
  const ENEMY_MAX_HEALTH: int := 100
  const ENEMY_DAMAGE: int := 10
  const ATTACK_RANGE: int := 100
  const HIT_HEIGHT: int := 50
  const ENEMY_ATTACK_COOLDOWN: int := 60
  const DEATH_DURATION: int := 60
  const RUN_DISTANCE: int := 200
  const TRAIL_LENGTH: int := 5
  const TRAIL_INTERVAL: int := 5
  const ENEMY_POINTS: int := 50

  // Static geometry
  const PLATFORM_W: nat := 120
  const PLATFORM_H: nat := 32
  const COLLISION_INSET: int := 5
  const GROUND_Y: int := 536                // HEIGHT - 64
  const GROUND_H: nat := 64

  // Power-ups
  const POWER_UP_SIZE: nat := 24
  const HEALTH_POWER_UP_VALUE: int := 35
  const MANA_POWER_UP_VALUE: int := 50

  // Spawner
  const RESPAWN_DELAY: int := 1800
  const MAX_ENEMIES: int := 3
  const SPAWN_CLEARANCE: int := 50
}
