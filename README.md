# solo — a Dafny model of the game core

This project models the core of *solo*, a side-scrolling pygame action game.
The player runs across a three-screen map, jumps between platforms, dashes,
fights enemies with melee and magic attacks, and can raise a shield. Enemies
respawn at fixed positions. An arrow shows when the camera's section is clear.
A small mode machine switches between the menus, play and the game-over screen.

The model covers:

- **Player** (`Entities.Player`): a class whose fields are the source object's fields. Each step of
  `Player.update` is a method proved against a pure step function on a
  `PlayerState` snapshot. The steps are mana regeneration, the animation state and
  clock, the cooldowns, gravity, movement and the camera hand-off, the map
  clamp, the dash, landing, the jump, the attack and magic gates, power-up
  pickup and the shield. `attack`, `cast_magic` and `take_damage` are methods
  over the enemy group.
- **Enemy** (`Entities.Enemy`): the same shape for `Enemy.update`. Its steps are the
  death branch, the cooldown, gravity, the ground and platform tests, and
  attack-or-chase. After those come the screen placement, the afterimage trail and
  the animation clock. `take_damage` and its power-up drop are modelled too.
- **Platforms, ground and power-ups** (`World`): the platform class, screen
  placement for a camera scroll, the section-clear test, the removal of
  defeated enemies, and `reset_game`'s effect on the player.
- **Enemy spawner** (`Spawner`): the spawn scan as a function with lemmas. The
  `EnemySpawner` class's `update` is proved against that function.
- **Game** (`Game.Game`): the module-level globals (`camera_scroll`, the sprite groups,
  the arrow, the spawner, the mode machine) as one class. It holds `reset_game`,
  `sync_world_positions`, `update_world_positions`, `check_section_cleared`,
  the event loop and one playing frame of `main`.
- **Mode machine** (`Modes`): `current_state`, `running` and `game_over` as a
  pure transition function over events.
- **Effects** (`Effects`): `EffectManager`'s particle list and trail map, and
  the `Particle` and `Trail` classes.
- **Sprites** (`Sprites`): the geometry of `SpriteSheet.get_image` and
  `get_animation_frames`.

Several inputs that the source draws itself are parameters here:

- the clock (`pygame.time.get_ticks()`);
- the keyboard state;
- the event queue;
- what each menu answers for an event;
- every random draw: particle jitter, the enemy's attack variant, and the drop draws.

The constants (`Config`) are those in effect when every sprite sheet loads.
All player positions and speeds are then integral. The enemy's vertical
speed is a real, because its gravity is 0.8.

Where the code's own comments or configuration disagree with what it does, or what it does is easy to misread, the model follows what it does:

- **Respawn delay.** It is 1800 ms of `get_ticks()` time, although the comment beside it (`src/game/main.py:1213`) says 30 seconds.
- **Enemy cap.** The cap of three enemies is checked once per spawner update, not per spawn, so
  one update can bring the group to four (`Spawner.SpawnOvershootsCap`).
- **Camera scroll.** The scroll can leave `[0, MAX_SCROLL]`. The 70 % branch can run with
  leftward motion, and the 30 % branch with rightward motion
  (`Rules.HandOffLeavesRange`).
- **Enemy hits.** An enemy's hit writes `player.health -= 10` directly. There is no shield
  reduction and no floor at 0 (`Entities.EnemyHitBypassesShieldAndFloor`).
  `Player.take_damage` is modelled but never called by the game.
- **Defeated enemies.** They are removed by the main loop in the tick their health reaches 0,
  with 50 points each. The 60-tick death animation therefore never completes for
  them.
- **Reset.**
  - `reset_game` centres the player's rectangle on x 100 but sets the world x (a left edge
    everywhere else) to 100 (`World.ResetMisplacesRect`).
  - It resets neither the score, the cooldowns, the vertical speed, the shield, the power-ups, the
    spawn timers nor the section arrow.
- **Dropped power-ups.** A power-up's `initial_x` is the dropping enemy's screen x, and
  placement then treats it as a world x (`World.DroppedPowerUpDrifts`).
- **Section check.** Its ends are both inclusive, so an enemy on a section border blocks the arrow
  of both sections (`World.BorderEnemyBlocksBoth`). It runs before the removal of
  the defeated enemies.
- **Enemy attack range.** It is 100 px, the value set in the class (`src/game/main.py:893`), not the 60 of the sprite
  configuration (`src/sprites/sprite_config.py:145`).

## Model

| member | source | states |
|---|---|---|
| Effects.BoundedAppendFifo | src/utils/effects.py:44-47 | appending to a bounded list keeps the newest `limit` points, ending with the new one |
| Effects.AppendAllKeepsNewest | src/utils/effects.py:44-47 | a series of bounded appends keeps exactly the newest `limit` points of the whole sequence |
| Effects.Channel | src/utils/effects.py:86-90 | a jittered colour channel is clamped into [0, 255] and unchanged when already in range |
| Effects.NewParticle | src/utils/effects.py:74-103 | a new particle starts at (x, y), alpha capped at 250, the given lifetime or one in 6..10, glow twice its size |
| Effects.Aged | src/utils/effects.py:113-131 | one update moves a particle by its speed, burns one tick and fades its alpha by the life ratio |
| Effects.AgeAllLeavesOnlySurvivors | src/utils/effects.py:113-135 | after an update every kept particle has lifetime left and alpha at least 30, and none is added |
| Effects.AgeAllVisitsEach | src/utils/effects.py:113-135 | the update keeps exactly the aged particles that survive: every survivor stays, nothing else appears |
| Effects.FadeNeverBrightens | src/utils/effects.py:120-122 | within the life range the fade factor never raises a particle's alpha nor makes it negative |
| Effects.EffectManager.constructor | src/utils/effects.py:70-72 | a new manager has no particles and no trails, so its trails are bounded |
| Effects.EffectManager.CreateParticles | src/utils/effects.py:74-103 | a burst appends `count` new particles after the existing ones, each as `NewParticle` makes it |
| Effects.EffectManager.CreateTrail | src/utils/effects.py:105-111 | the named trail is (re)created empty, with length 3 and fade speed 20; every trail stays at length 3 with at most 3 points |
| Effects.EffectManager.Update | src/utils/effects.py:113-135 | the particle list becomes `AgeAll` of the old one |
| Effects.EffectManager.UpdateTrail | src/utils/effects.py:137-141 | a point joins the named trail only if it exists, which then holds its newest 3 positions with the new point last; the other trails are untouched and every trail keeps at most 3 points |
| Effects.TrailPointKeepsBound | src/utils/effects.py:137-141 | adding a point keeps every trail at length 3 with at most 3 points |
| Effects.WithTrailPoint | src/utils/effects.py:137-141 | an unknown name changes nothing, keys and other trails are kept, only the positions of the named trail change |
| Effects.TrailPointFifo | src/utils/effects.py:137-141 | the named trail keeps its newest `max_length` positions, the new point last |
| Effects.LifetimeAlpha | src/utils/effects.py:24-25 | the alpha from the life fraction fails exactly when the maximum lifetime is 0 (the division raises), and is otherwise never negative |
| Effects.LifetimeAlphaFades | src/utils/effects.py:22-25 | alpha is monotone in the remaining lifetime and at most 255 |
| Effects.Particle.constructor | src/utils/effects.py:6-17 | a particle stores its inputs, its maximum lifetime, and a velocity of `speed` along the drawn angle |
| Effects.Particle.Update | src/utils/effects.py:19-26 | one step moves by (dx, dy) and burns one tick; with a maximum lifetime of 0 it then fails with alpha unchanged, otherwise it sets alpha from the life fraction and reports whether life is left |
| Effects.Trail.constructor | src/utils/effects.py:38-42 | a trail starts with no points |
| Effects.Trail.AddPoint | src/utils/effects.py:44-47 | the points become the bounded append of the new point |
| Sprites.GetImage | src/sprites/sprite_manager.py:18-44 | a cut of the requested region, scaled by truncation when scale is not 1; the fallback surface (unscaled) exactly when scaling fails |
| Sprites.GetAnimationFrames | src/sprites/sprite_manager.py:46-61 | one frame per index, frame `i` cut at column `i` of row `row` |
| Sprites.CutSource | src/sprites/sprite_manager.py:18-30 | for any non-negative scale the image is cut from the requested region |
| Sprites.PlayerFrameSize | src/sprites/sprite_manager.py:27-30 | a 50x37 player frame cut anywhere on the sheet at scale 2.0 is 100x74, the player's rectangle |
| Sprites.FallbackIgnoresScale | src/sprites/sprite_manager.py:39-44 | a negative scale yields the unscaled fallback, not the scaled size |
| Rules.Decrement | src/game/main.py:303-304 | a positive cooldown drops by one, a non-positive one is unchanged |
| Rules.CooldownStep | src/game/main.py:303-316 | the flag is cleared exactly when the cooldown reaches 0 this tick |
| Rules.CountdownClearsAtZero | src/game/main.py:303-306 | an active cooldown of `cd` counts down and clears its flag on tick `cd`, not before |
| Rules.CountdownStaysIdle | src/game/main.py:303-306 | an expired cooldown stays at 0 with its flag clear |
| Rules.RegenMana | src/game/main.py:282-283 | mana below the maximum grows but never past it; full mana stays |
| Rules.MagicNeedsThirtyMana | src/game/main.py:352-392 | below 30 mana a cast is refused whatever else holds, and an otherwise free dash is allowed exactly from 20 mana on |
| Rules.PlayerFrames | src/sprites/sprite_config.py:14-60 | constant table: every player animation has at least one frame, which the frame advance's modulo needs |
| Rules.PlayerDuration | src/sprites/sprite_config.py:14-60 | constant table: every player animation has a positive frame duration |
| Rules.PickStateNamesAbility | src/game/main.py:286-297 | with at most one ability flag set, the state names that ability exactly, and idle only without motion |
| Rules.AdvanceAnimation | src/game/main.py:227-237 | the timer either counts on or resets, and a reset advances the frame modulo the frame count |
| Rules.Period | src/game/main.py:229-235 | ticks per frame is the least `t` with `t >= duration/1000 * 60` |
| Rules.AnimationHolds | src/game/main.py:232-236 | from a fresh timer the frame holds for `Period - 1` ticks |
| Rules.AnimationAdvances | src/game/main.py:234-237 | on tick `Period` the frame advances, wrapping after the last |
| Rules.CameraHandOff | src/game/main.py:334-342 | past 70 % (or before 30 %) of the screen the camera takes the motion and the player's screen x is restored |
| Rules.HandOffKeepsWorldOffset | src/game/main.py:322-342 | when the scroll stays in range, screen x plus scroll moves exactly with the player |
| Rules.HandOffBoundedTowardTravel | src/game/main.py:334-342 | moving right cannot push the scroll below 0, moving left cannot push it past the maximum |
| Rules.HandOffLeavesRange | src/game/main.py:334-342 | the opposite motions do leave the range: scroll -10 and `MAX_SCROLL + 10` are reachable |
| Rules.ClampX | src/game/main.py:344-350 | a world x is clamped into [0, right] and kept when inside |
| Rules.DashTarget | src/game/main.py:357-366 | the dash lands in the map, at most 30 units the facing way, exactly 30 when that stays inside |
| Rules.LandAllSnapsToSurface | src/game/main.py:371-379 | after the landing tests either nothing changed or the fall stopped on top of one of the surfaces |
| Rules.LandAllLandsOnOverlap | src/game/main.py:371-379 | a falling player overlapping any surface does land |
| Rules.BumpAllSnapsToPlatform | src/game/main.py:1051-1064 | the enemy's platform pass either changes nothing or snaps it on top of or under a platform with its speed stopped |
| Rules.AttackCanMiss | src/game/main.py:1069-1078 | witness: an enemy attack triggered by world distance can still miss the hit test |
| Rules.ChaseStep | src/game/main.py:1088-1105 | the enemy steps 3 toward the player unless that leaves the map, and stays inside the map |
| Rules.ShieldedDamage | src/game/main.py:711-714 | damage is halved (truncated) under the shield and full otherwise |
| Rules.DamagedHealth | src/game/main.py:724-727 | health after a hit is floored at 0 |
| Rules.ShieldHalvesHit | src/game/main.py:711-727 | for every health and damage, a shielded hit costs half the damage (rounded down) while health remains, and never leaves less health than the unshielded hit |
| Rules.HealthAfterHitsFloor | src/game/main.py:1121-1124 | `n` successive hits of `damage` leave `health - n * damage`, floored at 0 |
| Rules.EnemyFallsOnFourthHit | src/game/main.py:1121-1124 | a fresh enemy is at 0 health after `n` melee hits exactly when `n` is at least 4 |
| Rules.ShieldTick | src/game/main.py:423-439 | the cooldown counts down; an active shield burns duration and expires into a 90-tick cooldown |
| Rules.ShieldLastsItsDuration | src/game/main.py:427-439 | a shield switched on with duration `d` stays on `d - 1` ticks and switches off on tick `d` with cooldown 90 |
| Rules.ShieldCoolsDown | src/game/main.py:423-425 | an inactive shield's cooldown counts down one per tick |
| Rules.Value | src/game/main.py:1384-1390 | constant table: every power-up restores a positive amount |
| Rules.NewPowerUp | src/game/main.py:1420-1421 | a power-up is a 24x24 square centred on the drop point, its initial x that centre |
| Rules.CollectStaysBounded | src/game/main.py:398-412 | pickup never lowers health or mana nor raises them past their maxima |
| Rules.CollectRemovesTouched | src/game/main.py:399 | exactly the touched power-ups are removed; the others stay in order |
| Rules.CollectIsIdempotent | src/game/main.py:399-412 | a second pickup pass over what is left changes nothing |
| Rules.CollectUntouched | src/game/main.py:399-412 | touching nothing changes nothing |
| Rules.AttackBox | src/game/main.py:466-474 | the attack box sits beside the body on the facing side, vertically centred |
| Rules.SectionIndex | src/game/main.py:1360 | the section index truncates the scroll over 800 toward zero |
| Entities.EnemyFrames | src/game/main.py:924-934 | constant table: every enemy animation has at least one frame, which the frame advance's modulo needs |
| Entities.EnemyDuration | src/sprites/sprite_config.py:95-140 | constant table: every enemy animation has a positive frame duration |
| Entities.NewEnemy | src/game/main.py:836-906 | a new enemy stands with its bottom at `y`, world x `x`, full health and alive |
| Entities.EnemyAnimate | src/game/main.py:1004-1022 | the enemy's animation step only touches its timer and frame, and keeps the frame in range |
| Entities.EnemyWounded | src/game/main.py:1121-1133 | damage floors health at 0; a power-up of the drawn kind drops at its centre exactly when it dies and the draw says so |
| Entities.EnemyVertical | src/game/main.py:1047-1064 | the vertical pass leaves the enemy's x and size alone |
| Entities.EnemyAct | src/game/main.py:1066-1105 | in range with cooldown 0 the enemy attacks and resets its cooldown, hurting the player by 10 if the hit lands; otherwise it chases |
| Entities.TrailStep | src/game/main.py:1110-1116 | every fifth tick the centre joins the trail, which keeps its newest five points |
| Entities.EnemyTick | src/game/main.py:1034-1119 | a tick keeps an enemy valid, costs the player 0 or 10 health, and a live enemy is placed at world x less scroll |
| Entities.DyingTick | src/game/main.py:1035-1041 | a dead enemy only advances its death timer and animation |
| Entities.LiveMove | src/game/main.py:1043-1108 | the live branch before the animation keeps the enemy valid and places it on screen |
| Entities.Approach | src/game/main.py:1043-1105 | the cooldown, fall and decision keep health and the trail |
| Entities.LiveTick | src/game/main.py:1043-1119 | the live branch keeps the enemy valid and its health, costing the player 0 or 10 |
| Entities.EnemyHitBypassesShieldAndFloor | src/game/main.py:1075-1078 | a player on 5 health hit by an enemy is left on -5 |
| Entities.Enemy.constructor | src/game/main.py:836-906 | the object's state is `NewEnemy(x, bottom)` |
| Entities.Enemy.UpdateAnimation | src/game/main.py:1004-1022 | the state becomes `EnemyAnimate` of the old one |
| Entities.Enemy.TakeDamage | src/game/main.py:1121-1133 | state and drop are those of `EnemyWounded` |
| Entities.Enemy.Update | src/game/main.py:1034-1119 | state, the player's health and self-removal are those of `EnemyTick` |
| Entities.Enemy.Die | src/game/main.py:1035-1041 | the dead branch is `DyingTick` |
| Entities.Enemy.Live | src/game/main.py:1043-1119 | the live branch is `LiveTick` |
| Entities.Enemy.Advance | src/game/main.py:1043-1108 | the live branch before the animation is `LiveMove` |
| Entities.Enemy.Close | src/game/main.py:1043-1105 | cooldown, fall and decision are `Approach` |
| Entities.Enemy.Descend | src/game/main.py:1047-1064 | the fall is `EnemyVertical` |
| Entities.Enemy.Engage | src/game/main.py:1066-1105 | the decision is `EnemyAct` |
| Entities.Enemy.ExtendTrail | src/game/main.py:1110-1116 | the trail step is `TrailStep` |
| Entities.StepAnimate | src/game/main.py:281-300 | regeneration, the state pick and the animation clock, leaving position alone |
| Entities.StepCooldowns | src/game/main.py:302-316 | each cooldown/flag pair takes one `CooldownStep` |
| Entities.StepGravity | src/game/main.py:318-320 | vertical speed grows by gravity and the body falls by the new speed |
| Entities.StepMove | src/game/main.py:322-342 | no motion while attacking or casting; otherwise move and hand off to the camera, which stays in range toward the travel |
| Entities.StepClamp | src/game/main.py:344-350 | world x is clamped into the map, the screen x resynced only when it was clamped |
| Entities.StepDash | src/game/main.py:352-369 | when granted, 20 mana, a 45-tick cooldown and the dash target; nothing otherwise |
| Entities.StepLand | src/game/main.py:371-379 | either nothing changes or a falling player stops on top of a surface |
| Entities.StepJump | src/game/main.py:381-383 | the jump sets speed -20 exactly when pressed from rest |
| Entities.StepAttack | src/game/main.py:385-387 | when granted, the attacking flag and the 30-tick cooldown; nothing otherwise |
| Entities.StepCast | src/game/main.py:389-392 | when granted, the casting flag, the 45-tick cooldown and 30 mana; nothing otherwise |
| Entities.StepCollect | src/game/main.py:398-421 | pickup changes only health and mana, within their maxima |
| Entities.StepShield | src/game/main.py:423-445 | one shield tick, then activation for 600 ticks at 35 mana when granted |
| Entities.PlayerMotion | src/game/main.py:281-383 | the steps before the attack key keep the player valid |
| Entities.PlayerTick | src/game/main.py:278-459 | a whole tick keeps the player valid and the scroll in range toward the travel |
| Entities.PlayerHurt | src/game/main.py:711-731 | damage halved under the shield and floored at 0; at 0 health the player is dead with the death animation at frame 0 |
| Entities.Struck | src/game/main.py:502-505 | an enemy loses health only when the strike box overlaps it |
| Entities.StrikeDrops | src/game/main.py:1127-1133 | a strike drops at most one power-up per enemy |
| Entities.StrikeAll | src/game/main.py:502-505 | every enemy of the group is struck independently, in order |
| Entities.Player.constructor | src/game/main.py:147-225 | centred at (x, y), full health and mana, no flags, score 0, and the dash trail created |
| Entities.Player.UpdateAnimation | src/game/main.py:227-251 | the animation clock for the current state |
| Entities.Player.Strike | src/game/main.py:502-505 | the enemies become `StrikeAll` of their old states and the drops are `StrikeDrops` |
| Entities.Player.StrikeOne | src/game/main.py:503-505 | one enemy becomes `Struck` of its old state |
| Entities.Player.Attack | src/game/main.py:461-516 | sets the attacking flag and cooldown 30 and strikes with the 140x100 box for 30 damage |
| Entities.Player.CastMagic | src/game/main.py:518-578 | sets the casting flag and cooldown 45 and strikes with the 200x160 box for 45 damage |
| Entities.Player.TakeDamage | src/game/main.py:711-731 | the state becomes `PlayerHurt` |
| Entities.Player.BeginTick | src/game/main.py:281-300 | the state becomes `StepAnimate` |
| Entities.Player.TickCooldowns | src/game/main.py:302-316 | the state becomes `StepCooldowns` |
| Entities.Player.TickAttackCooldown | src/game/main.py:303-306 | one `CooldownStep` of the attack cooldown |
| Entities.Player.TickCastCooldown | src/game/main.py:308-311 | one `CooldownStep` of the cast cooldown |
| Entities.Player.TickDashCooldown | src/game/main.py:313-316 | one `CooldownStep` of the dash cooldown |
| Entities.Player.ApplyGravity | src/game/main.py:318-320 | the state becomes `StepGravity` |
| Entities.Player.Move | src/game/main.py:322-342 | state and scroll become `StepMove` |
| Entities.Player.ClampToMap | src/game/main.py:344-350 | the state becomes `StepClamp` |
| Entities.Player.Dash | src/game/main.py:352-369 | the state becomes `StepDash` |
| Entities.Player.DashShift | src/game/main.py:357-369 | world x becomes the dash target and the screen x is resynced |
| Entities.Player.Land | src/game/main.py:371-379 | the state becomes `StepLand` |
| Entities.Player.Jump | src/game/main.py:381-383 | the state becomes `StepJump` |
| Entities.Player.CollectPowerUps | src/game/main.py:398-421 | state and the power-ups left become `StepCollect` |
| Entities.Player.TickShield | src/game/main.py:423-439 | the shield becomes `ShieldTick` of the old one |
| Entities.Player.UpdateShield | src/game/main.py:423-445 | the state becomes `StepShield` |
| Entities.Player.Motion | src/game/main.py:281-383 | state and scroll become `PlayerMotion`; the enemies are untouched |
| Entities.Player.UseAbilities | src/game/main.py:385-392 | the gates, with the enemies struck as the granted abilities say |
| Entities.Player.AttackGate | src/game/main.py:385-387 | the state becomes `StepAttack`; the enemies are struck only when granted |
| Entities.Player.MagicGate | src/game/main.py:389-392 | the state becomes `StepCast`; the enemies are struck only when granted |
| Entities.Player.Update | src/game/main.py:278-459 | the player, scroll and power-ups left are `PlayerTick` (the strike drops joining the power-ups), the enemies struck as `Strikes` says, the dash trail extended while dashing |
| Entities.Player.Finish | src/game/main.py:394-459 | the dash trail, pickup and shield |
| Entities.Player.LeaveTrail | src/game/main.py:394-396 | while dashing the centre joins the dash trail |
| Entities.Player.Settle | src/game/main.py:398-445 | pickup, then the shield |
| World.CollisionBox | src/game/main.py:766-771 | the collision box is the drawn rectangle inset 5 px top and bottom |
| World.Platform.constructor | src/game/main.py:736-766 | 120x32 at (x, y), initial x `x`, collision box inset |
| World.Platform.Update | src/game/main.py:768-771 | the collision box follows the drawn rectangle |
| World.PlayerSurfaces | src/game/main.py:371-379 | the player tests every collision box, then the ground |
| World.PlaceEnemy | src/game/main.py:1298-1300 | an enemy's screen x is its world x less the scroll, nothing else changes |
| World.PlaceEnemies | src/game/main.py:1297-1300 | every enemy placed |
| World.PlaceEnemiesLastWins | src/game/main.py:1279-1303 | placing twice is placing with the last scroll |
| World.PlacePowerUp | src/game/main.py:1291-1293 | a power-up's centre x is its initial x less the scroll, nothing else changes |
| World.PlacePowerUps | src/game/main.py:1291-1293 | every power-up placed |
| World.DroppedPowerUpDrifts | src/game/main.py:1130-1131 | a dropped power-up is drawn shifted left by the scroll at the time of the drop |
| World.SectionHoldsCamera | src/game/main.py:1359-1362 | for a scroll in range the camera's left edge lies in the checked section |
| World.BorderEnemyBlocksBoth | src/game/main.py:1361-1367 | an enemy on a border keeps the arrow off in both sections |
| World.SectionFromStart | src/game/main.py:1360 | a scroll at the start of section `k` checks section `k` |
| World.NegativeScrollChecksFirstSection | src/game/main.py:1360-1367 | a slightly negative scroll checks [0, 800] |
| World.Living | src/game/main.py:1573-1576 | exactly the enemies with health left are kept |
| World.LivingAndFallen | src/game/main.py:1573-1576 | every enemy is either kept or counted once |
| World.SweepEnemies | src/game/main.py:1553-1554 | one state and one removal flag per enemy |
| World.SweepBounds | src/game/main.py:1553-1554 | the sweep keeps every enemy valid, keeps live enemies' health, and costs the player 10 per landed hit at most |
| World.Kept | src/game/main.py:1038-1039 | the enemies that removed themselves leave the group; with none, the group is unchanged |
| World.ResetPlayer | src/game/main.py:1258-1263 | full health and mana, world x 100, rectangle centred on 100 with bottom 540, nothing else changed |
| World.ResetPlayerIdempotent | src/game/main.py:1258-1263 | resetting twice is resetting once |
| World.ResetRestoresValidity | src/game/main.py:1258-1263 | a reset makes a player valid again however low its health fell |
| World.ResetMisplacesRect | src/game/main.py:1261-1262 | after a reset the screen x is 50 px left of world x less scroll 0 |
| Spawner.Scan | src/game/main.py:1228-1243 | the scan keeps the timer keys and places at most one enemy per position |
| Spawner.ScanAdvance | src/game/main.py:1228-1243 | the loop moving past a position keeps the scan's result |
| Spawner.ScanSound | src/game/main.py:1232-1243 | a position is spawned at only if its timer ran out and no enemy is within 50 px |
| Spawner.ScanSpreads | src/game/main.py:1232-1243 | enemies placed by one scan are at least 50 px apart |
| Spawner.ScanComplete | src/game/main.py:1232-1243 | every position with its timer run out ends up within 50 px of an enemy |
| Spawner.ScanTimers | src/game/main.py:1239-1243 | spawning moves that position's timer to now + 1800 and leaves the others |
| Spawner.SpawnCapped | src/game/main.py:1223-1225 | with three enemies or more an update does nothing |
| Spawner.SpawnOvershootsCap | src/game/main.py:1223-1243 | two enemies away from both positions become four in one update |
| Spawner.EnemySpawner.constructor | src/game/main.py:1208-1218 | every position's timer starts at 0 |
| Spawner.EnemySpawner.Update | src/game/main.py:1220-1243 | new enemies and timers are those of `SpawnTick` over the group's world xs |
| Spawner.EnemySpawner.ScanPositions | src/game/main.py:1228-1243 | the loop's result is `Scan` |
| Spawner.EnemySpawner.Consider | src/game/main.py:1229-1243 | one position: spawn and move its timer exactly when free and timed out |
| Spawner.EnemySpawner.Present | src/game/main.py:1232-1236 | the inner search answers whether an enemy is within 50 px |
| Modes.HandleEvent | src/game/main.py:1477-1522 | quit stops the loop, nothing restarts it, `game_over` matches the game-over screen, and a reset happens exactly on Return or Escape there |
| Modes.FrameCheck | src/game/main.py:1538-1545 | the frame runs exactly when playing with health left; otherwise the game is over |
| Modes.EscapeGoesToMenu | src/game/main.py:1505-1522 | Escape leaves controls, play and game over for the menu |
| Modes.PauseResumesWithoutReset | src/game/main.py:1482-1511 | Escape then start resumes play without a reset |
| Modes.HandleAll | src/game/main.py:1477-1522 | the event loop keeps the flag consistent and never restarts the loop |
| Modes.HandleAllSnoc | src/game/main.py:1477-1522 | one more event is handled after those before it |
| Modes.QuitStops | src/game/main.py:1477-1479 | a quit event anywhere in a frame ends the loop |
| Game.Game.constructor | src/game/main.py:1163-1251 | the start state: menu, scroll 0, the eight platforms, the ground, the player at 100, the spawner's timers at 0 |
| Game.Game.MakePlatforms | src/game/main.py:1184-1187 | one platform at each of the eight positions, in order |
| Game.Game.ResetGame | src/game/main.py:1253-1273 | scroll 0, the player reset, and a new enemy at each spawn position |
| Game.Game.RestorePlayer | src/game/main.py:1258-1263 | the player becomes `ResetPlayer` of its old state |
| Game.Game.StartingEnemies | src/game/main.py:1269-1273 | a new enemy at each spawn position |
| Game.Game.SyncWorldPositions | src/game/main.py:1295-1303 | player, enemies and platforms placed for the scroll; collision boxes not moved |
| Game.Game.PlaceScenery | src/game/main.py:1297-1303 | the player and platforms placed |
| Game.Game.UpdateWorldPositions | src/game/main.py:1279-1293 | player, enemies, platforms, ground and power-ups placed |
| Game.Game.PlaceGroundAndPowerUps | src/game/main.py:1288-1293 | the ground at minus the scroll and the power-ups placed |
| Game.Game.PlacePlayer | src/game/main.py:1282-1284 | the player's screen x is world x less scroll |
| Game.Game.PlaceAllEnemies | src/game/main.py:1282-1284 | the enemies become `PlaceEnemies` of their old states |
| Game.Game.PlacePlatforms | src/game/main.py:1285-1287 | each platform at initial x less scroll, its collision box untouched |
| Game.Game.PlaceEachPowerUp | src/game/main.py:1291-1293 | the power-ups become `PlacePowerUps` |
| Game.Game.UpdatePlatforms | src/game/main.py:1562-1564 | every collision box follows its platform |
| Game.Game.CheckSectionCleared | src/game/main.py:1357-1371 | the arrow is visible exactly when the camera's section holds no enemy |
| Game.Game.RemoveDead | src/game/main.py:1572-1576 | exactly the living enemies stay, in order, and the score grows by 50 per fallen one |
| Game.Game.Cull | src/game/main.py:1573-1576 | the loop keeps the living enemies and counts 50 per fallen one |
| Game.Game.HandleEvents | src/game/main.py:1477-1522 | the machine is `HandleAll`'s; after a reset the scroll is 0, the player reset and new enemies placed, otherwise nothing else changed |
| Game.Game.HandleOne | src/game/main.py:1478-1522 | one more event, with `reset_game` when it calls for one |
| Game.Game.PlayFrame | src/game/main.py:1538-1586 | game over exactly when health is gone; otherwise one tick |
| Game.Game.Tick | src/game/main.py:1545-1586 | the scroll the player's motion leaves, everything placed, no defeated enemy left, the particles aged |
| Game.Game.Advance | src/game/main.py:1550-1554 | the player and the enemies update; the scroll is the player's |
| Game.Game.Finish | src/game/main.py:1556-1586 | placement, the section check, the removal, the effects and the spawner |
| Game.Game.Move | src/game/main.py:1550 | the scroll is the one the player's motion leaves |
| Game.Game.Place | src/game/main.py:1556-1564 | everything placed for the scroll |
| Game.Game.Settle | src/game/main.py:1566-1586 | no defeated enemy left and the particles aged |
| Game.Game.Tidy | src/game/main.py:1566-1576 | the section check, then no defeated enemy left |
| Game.Game.Refill | src/game/main.py:1578-1586 | the particles aged, then the spawner |
| Game.Game.AgeParticles | src/game/main.py:1579 | the particles become `AgeAll` of the old ones |
| Game.Game.UpdatePlayer | src/game/main.py:1550 | the player's tick is `PlayerTick`, and the enemies are struck as `Strikes` says |
| Game.Game.Spawn | src/game/main.py:1586 | the new enemies join the group as `SpawnTick` says, at full health |
| Game.Game.UpdateEnemies | src/game/main.py:1553-1554 | every enemy ticks as `SweepEnemies` says and the ones that removed themselves leave |
| Game.Game.SweepAll | src/game/main.py:1553-1554 | every enemy ticks as `SweepEnemies` says |
| Game.Game.Prune | src/game/main.py:1038-1039 | the enemies that removed themselves leave the group |
| Game.Game.SweepGroup | src/game/main.py:1553-1554 | the loop over the group is `SweepEnemies` |
| Game.Game.TickOne | src/game/main.py:1554 | one more enemy's tick extends the sweep |
| Game.LowerHealthValid | src/game/main.py:1078 | a player stays valid when an enemy's hit lowers health |
| Game.AllAlive | src/game/main.py:1573-1576 | every enemy left after the removal has health |
| Game.SweepStep | src/game/main.py:1553-1554 | the sweep over one more enemy runs its tick after the others |
| Game.CullStep | src/game/main.py:1573-1576 | one more enemy is kept when alive and counted otherwise |
| Game.KeptLiving | src/game/main.py:1573-1576 | dropping the defeated enemies keeps exactly the living ones |

## Left out

- Drawing is not modelled: surfaces, blits, health bars, the background, the controls screen, and the shield's pulse and wave visuals.
- The menus' own input handling (`src/menus/menu.py`) is not part of this model. What a menu answers for an event is an input.
- The section arrow's animation (`Arrow.update`) and `PowerUp.update`'s floating and pulsing are left out. They are visual only and use `sin` of the clock.
- The particle bursts that the player's and the enemies' actions create are left out of those actions. They are visual only and their positions use trigonometry. `Effects.EffectManager.CreateParticles` models a burst on its own.
- `create_attack_effect`, `create_magic_effect` and `EffectManager.draw` are rendering and are left out.
- Loading sprite sheets, images and files, and any failure to load them, is left out. The constants are those of the case where every asset loads.
- The clock, the keyboard, the event queue and every random draw are parameters, as listed above.
- Frame pacing (`clock.tick(60)`) and `pygame.quit` are left out.
- The group order of `all_sprites` in the placement passes is not modelled. Each sprite's placement reads only its own fields and the scroll, so the order does not change the result.
- Floating-point rounding is not modelled. The source's floats (mana, the enemy's vertical speed, the particle fade and alpha) are exact reals here, so a threshold can be crossed one tick earlier than under IEEE doubles, or an alpha come out one unit higher. This concerns `Rules.RegenMana`, `Entities.StepAnimate`, the `Rules.CanCast`, `Rules.CanDash` and `Rules.CanShield` gates, `Entities.EnemyVertical`, `Effects.FadedAlpha`, `Effects.Aged` and `Effects.LifetimeAlpha`.
- Game.Game.PlayFrame: does not state the player's and enemies' exact new states after a tick. Those are stated step by step by `Game.Game.UpdatePlayer`, `Game.Game.UpdateEnemies` and `Game.Game.Spawn`, and the frame states the scroll, the placement, the removal and the particles.
- Game.Game.Tick: states the same parts of the new state as `PlayFrame`, for the same reason.
- Game.Game.HandleEvents: the player's fields that `reset_game` does not touch are not stated beyond the `ResetPlayer` relation.
- Entities.Player.Update: power-ups a strike drops are collected in the same tick. The model states this through `PlayerTick` over the power-ups plus the drops. It does not model `all_sprites` membership of a dropped power-up.
- Entities.Enemy.Update: enemy positions are integers. The vertical speed is real, and its addition to `rect.y` is truncated.
- Entities.EnemyTick: `is_dead` only becomes true through `take_damage`. Since the main loop removes an enemy with no health in the same tick, the dying branch's removal after 60 ticks is modelled but never reached from play.
