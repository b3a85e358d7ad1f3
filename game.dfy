/**
 * The running game: the module-level state of the main program (the camera
 * scroll, the player, the sprite groups, the effect manager, the spawner,
 * the section arrow and the screen mode) and the steps of its main loop.
 */
module Game {
  import opened Numeric
  import opened Geometry
  import opened Config
  import opened Rules
  import opened Entities
  import opened World
  import opened Spawner
  import opened Modes
  import Effects

  /** The drawn rectangle of each platform, which the enemies land on. */
  function PlatformRects(ps: seq<Platform>): (r: seq<Rect>)
    reads set p | p in ps
    ensures |r| == |ps| && forall i :: 0 <= i < |ps| ==> r[i] == ps[i].rect
  {
    if ps == [] then [] else PlatformRects(ps[..|ps| - 1]) + [ps[|ps| - 1].rect]
  }

  /** The collision box of each platform, which the player lands on. */
  function CollisionRects(ps: seq<Platform>): (r: seq<Rect>)
    reads set p | p in ps
    ensures |r| == |ps| && forall i :: 0 <= i < |ps| ==> r[i] == ps[i].collisionRect
  {
    if ps == [] then [] else CollisionRects(ps[..|ps| - 1]) + [ps[|ps| - 1].collisionRect]
  }

  predicate DistinctPlatforms(ps: seq<Platform>)
  {
    forall i, j :: 0 <= i < j < |ps| ==> ps[i] != ps[j]
  }

  /** The game's global state. */
  class Game {
    var scroll: int
    const player: Player
    var enemies: seq<Enemy>
    const platforms: seq<Platform>
    var ground: Rect
    var powerUps: seq<PowerUp>
    const fx: Effects.EffectManager
    const spawner: EnemySpawner
    var arrowVisible: bool
    var machine: Machine

    predicate Valid()
      reads this`enemies, this`machine, player, spawner, fx`trails
    {
      player.Valid() && fx.Valid() && spawner.Valid() && Distinct(enemies) && DistinctPlatforms(platforms) && Consistent(machine)
    }

    /**
     * The program's start-up: the eight platforms, the ground, the player
     * centred on (100, 540) with its animation clock at `ticks`, no enemies
     * yet, the spawner over the two spawn positions, the arrow hidden and
     * the main menu showing.
     */
    constructor (ticks: nat)
      ensures Valid() && machine == START && scroll == 0 && enemies == [] && powerUps == [] && !arrowVisible
      ensures ground == GROUND && |platforms| == |PLATFORM_POSITIONS|
      ensures forall i :: 0 <= i < |platforms| ==>
        platforms[i].rect == Rect(PLATFORM_POSITIONS[i].0, PLATFORM_POSITIONS[i].1, PLATFORM_W, PLATFORM_H) &&
        platforms[i].initialX == PLATFORM_POSITIONS[i].0
      ensures player.worldX == RESET_X && player.health == PLAYER_MAX_HEALTH && player.score == 0
      ensures spawner.positions == ENEMY_POSITIONS && spawner.spawnTimer == map p | p in ENEMY_POSITIONS :: 0
    {
      var ps := MakePlatforms();
      platforms := ps;
      ground := GROUND;
      var effects := new Effects.EffectManager();
      fx := effects;
      player := new Player(RESET_X, RESET_BOTTOM, ticks, effects);
      enemies := [];
      spawner := new EnemySpawner(ENEMY_POSITIONS);
      powerUps := [];
      scroll := 0;
      arrowVisible := false;
      machine := START;
    }

    /** One platform at each of the platform positions, in order. */
    static method MakePlatforms() returns (ps: seq<Platform>)
      ensures |ps| == |PLATFORM_POSITIONS| && DistinctPlatforms(ps)
      ensures forall i :: 0 <= i < |ps| ==>
        fresh(ps[i]) && ps[i].initialX == PLATFORM_POSITIONS[i].0 &&
        ps[i].rect == Rect(PLATFORM_POSITIONS[i].0, PLATFORM_POSITIONS[i].1, PLATFORM_W, PLATFORM_H)
    {
      ps := [];
      for i := 0 to |PLATFORM_POSITIONS|
        invariant |ps| == i && DistinctPlatforms(ps)
        invariant forall k :: 0 <= k < i ==>
          fresh(ps[k]) && ps[k].initialX == PLATFORM_POSITIONS[k].0 &&
          ps[k].rect == Rect(PLATFORM_POSITIONS[k].0, PLATFORM_POSITIONS[k].1, PLATFORM_W, PLATFORM_H)
      {
        var p := new Platform(PLATFORM_POSITIONS[i].0, PLATFORM_POSITIONS[i].1);
        ps := ps + [p];
      }
    }

    /**
     * `reset_game`: the camera back at 0, the player as `ResetPlayer` leaves
     * it, and the enemy group replaced by a new enemy at each spawn position.
     */
    method ResetGame()
      requires Valid()
      modifies this`scroll, this`enemies, player`health, player`mana, player`worldX, player`rect
      ensures Valid()
      ensures scroll == 0 && player.State() == ResetPlayer(old(player.State()))
      ensures Born(enemies, ENEMY_POSITIONS) && forall e :: e in enemies ==> fresh(e)
    {
      scroll := 0;
      RestorePlayer(player);
      var group := StartingEnemies();
      enemies := group;
    }

    /** `reset_game`'s writes to the player. */
    static method RestorePlayer(player: Player)
      requires player.Valid()
      modifies player`health, player`mana, player`worldX, player`rect
      ensures player.Valid() && player.State() == ResetPlayer(old(player.State()))
    {
      ResetRestoresValidity(player.State());
      player.health := PLAYER_MAX_HEALTH;
      player.mana := PLAYER_MAX_MANA;
      player.worldX := RESET_X;
      player.rect := player.rect.WithCenterX(RESET_X).WithBottom(RESET_BOTTOM);
    }

    /** A new enemy at each spawn position, in order. */
    static method StartingEnemies() returns (es: seq<Enemy>)
      ensures Born(es, ENEMY_POSITIONS) && Distinct(es) && forall e :: e in es ==> fresh(e)
    {
      var first := new Enemy(ENEMY_POSITIONS[0].x, ENEMY_POSITIONS[0].bottom);
      var second := new Enemy(ENEMY_POSITIONS[1].x, ENEMY_POSITIONS[1].bottom);
      es := [first, second];
    }

    /**
     * `sync_world_positions`: the player and every enemy drawn at its world
     * x less the scroll, every platform at its initial x less the scroll.
     */
    method SyncWorldPositions()
      requires Valid()
      modifies player`rect, (set e | e in enemies)`rect, (set p | p in platforms)`rect
      ensures Valid()
      ensures player.rect == old(player.rect).(x := player.worldX - scroll)
      ensures StatesOf(enemies) == PlaceEnemies(old(StatesOf(enemies)), scroll)
      ensures forall p :: p in platforms ==>
        p.rect == old(p.rect).(x := p.initialX - scroll) && p.collisionRect == old(p.collisionRect)
    {
      PlaceScenery();
      PlaceAllEnemies(enemies, scroll);
    }

    /** The platforms and the player drawn at their world x less the scroll; the enemies as they were. */
    method PlaceScenery()
      requires Valid()
      modifies player`rect, (set p | p in platforms)`rect
      ensures Valid() && StatesOf(enemies) == old(StatesOf(enemies))
      ensures player.rect == old(player.rect).(x := player.worldX - scroll)
      ensures forall p :: p in platforms ==>
        p.rect == old(p.rect).(x := p.initialX - scroll) && p.collisionRect == old(p.collisionRect)
    {
      PlacePlatforms(platforms, scroll);
      PlacePlayer(player, scroll);
    }

    /**
     * `update_world_positions`: what `sync_world_positions` does, and also
     * the ground drawn at minus the scroll and every power-up centred at
     * its initial x less the scroll.
     */
    method UpdateWorldPositions()
      requires Valid()
      modifies this`ground, this`powerUps, player`rect, (set e | e in enemies)`rect, (set p | p in platforms)`rect
      ensures Valid()
      ensures player.rect == old(player.rect).(x := player.worldX - scroll)
      ensures StatesOf(enemies) == PlaceEnemies(old(StatesOf(enemies)), scroll)
      ensures forall p :: p in platforms ==>
        p.rect == old(p.rect).(x := p.initialX - scroll) && p.collisionRect == old(p.collisionRect)
      ensures ground == old(ground).(x := -scroll)
      ensures powerUps == PlacePowerUps(old(powerUps), scroll)
    {
      SyncWorldPositions();
      PlaceGroundAndPowerUps();
    }

    /** The ground drawn at minus the scroll and every power-up centred at its initial x less the scroll. */
    method PlaceGroundAndPowerUps()
      requires Valid()
      modifies this`ground, this`powerUps
      ensures Valid() && enemies == old(enemies)
      ensures ground == old(ground).(x := -scroll)
      ensures powerUps == PlacePowerUps(old(powerUps), scroll)
    {
      ground := ground.(x := -scroll);
      var placed := PlaceEachPowerUp(powerUps, scroll);
      powerUps := placed;
    }

    static method PlacePlayer(player: Player, scroll: int)
      requires player.Valid()
      modifies player`rect
      ensures player.Valid()
      ensures player.rect == old(player.rect).(x := player.worldX - scroll)
    {
      player.rect := player.rect.(x := player.worldX - scroll);
    }

    /** Each enemy of the group drawn at its world x less the scroll. */
    static method PlaceAllEnemies(es: seq<Enemy>, scroll: int)
      requires Distinct(es)
      modifies (set e | e in es)`rect
      ensures StatesOf(es) == PlaceEnemies(old(StatesOf(es)), scroll)
    {
      ghost var before := StatesOf(es);
      for i := 0 to |es|
        invariant forall j :: 0 <= j < i ==> es[j].State() == PlaceEnemy(before[j], scroll)
        invariant forall j :: i <= j < |es| ==> es[j].State() == before[j]
      {
        es[i].rect := es[i].rect.(x := es[i].worldX - scroll);
      }
    }

    /** Each platform drawn at its initial x less the scroll. */
    static method PlacePlatforms(ps: seq<Platform>, scroll: int)
      requires DistinctPlatforms(ps)
      modifies (set p | p in ps)`rect
      ensures forall p :: p in ps ==> p.rect == old(p.rect).(x := p.initialX - scroll)
      ensures forall p :: p in ps ==> p.collisionRect == old(p.collisionRect)
    {
      for i := 0 to |ps|
        invariant forall j :: 0 <= j < i ==> ps[j].rect == old(ps[j].rect).(x := ps[j].initialX - scroll)
        invariant forall j :: i <= j < |ps| ==> ps[j].rect == old(ps[j].rect)
      {
        ps[i].rect := ps[i].rect.(x := ps[i].initialX - scroll);
      }
    }

    /** Each power-up centred at its initial x less the scroll. */
    static method PlaceEachPowerUp(pups: seq<PowerUp>, scroll: int) returns (placed: seq<PowerUp>)
      ensures placed == PlacePowerUps(pups, scroll)
    {
      placed := pups;
      for i := 0 to |pups|
        invariant |placed| == |pups|
        invariant forall j :: 0 <= j < i ==> placed[j] == PlacePowerUp(pups[j], scroll)
        invariant forall j :: i <= j < |pups| ==> placed[j] == pups[j]
      {
        placed := placed[i := placed[i].(rect := placed[i].rect.WithCenterX(placed[i].initialX - scroll))];
      }
    }

    /** `platform.update()` for every platform. */
    method UpdatePlatforms()
      requires Valid()
      modifies (set p | p in platforms)`collisionRect
      ensures Valid()
      ensures forall p :: p in platforms ==> p.rect == old(p.rect)
      ensures forall p :: p in platforms ==> p.collisionRect == CollisionBox(p.rect)
    {
      for i := 0 to |platforms|
        invariant forall j :: 0 <= j < |platforms| ==>
          platforms[j].rect == old(platforms[j].rect)
        invariant forall j :: 0 <= j < i ==> platforms[j].collisionRect == CollisionBox(platforms[j].rect)
      {
        platforms[i].Update();
      }
    }

    /**
     * `check_section_cleared`: the arrow shows exactly when no enemy's world
     * x lies in the camera's section, both ends included.
     */
    method CheckSectionCleared()
      requires Valid() && Placed()
      modifies this`arrowVisible
      ensures Valid() && Placed() && enemies == old(enemies)
      ensures arrowVisible == SectionClear(scroll, WorldXs(StatesOf(enemies)))
    {
      var start := SectionIndex(scroll) * WIDTH;
      var stop := start + WIDTH;
      ghost var xs := WorldXs(StatesOf(enemies));
      var inSection := false;
      var i := 0;
      while i < |enemies|
        invariant 0 <= i <= |enemies|
        invariant !inSection && forall j :: 0 <= j < i ==> !(start <= xs[j] <= stop)
      {
        if start <= enemies[i].worldX <= stop {
          inSection := true;
          break;
        }
        i := i + 1;
      }
      arrowVisible := !inSection;
    }

    /**
     * The main loop's removal of defeated enemies: each enemy with no health
     * left scores 50 for the player and leaves the group.
     */
    method RemoveDead()
      requires Valid() && Placed()
      modifies this`enemies, player`score
      ensures Valid() && Placed()
      ensures StatesOf(enemies) == Living(old(StatesOf(enemies)))
      ensures forall e :: e in enemies ==> e in old(enemies)
      ensures forall k :: 0 <= k < |enemies| ==> enemies[k].health > 0
      ensures player.score == old(player.score) + ENEMY_POINTS * Fallen(old(StatesOf(enemies)))
    {
      var kept, gained := Cull(enemies);
      Regroup(kept, gained);
      AllAlive(enemies, old(StatesOf(enemies)));
    }

    /** `enemies` becomes the group `kept`, and `player.score += points`. */
    method Regroup(kept: seq<Enemy>, points: int)
      requires Valid() && Placed() && Distinct(kept)
      modifies this`enemies, player`score
      ensures Valid() && Placed() && enemies == kept && player.score == old(player.score) + points
      ensures StatesOf(enemies) == old(StatesOf(kept))
    {
      enemies := kept;
      player.score := player.score + points;
    }

    /** The enemies of `es` with health left, in order, and the points the others score. */
    static method Cull(es: seq<Enemy>) returns (kept: seq<Enemy>, gained: int)
      requires Distinct(es)
      ensures StatesOf(kept) == Living(StatesOf(es)) && Distinct(kept)
      ensures forall e :: e in kept ==> e in es
      ensures gained == ENEMY_POINTS * Fallen(StatesOf(es))
    {
      ghost var before := StatesOf(es);
      ghost var dead := Defeated(before);
      kept, gained := [], 0;
      for i := 0 to |es|
        invariant Culled(es, dead, before, i, kept, gained)
      {
        assert dead[i] == (es[i].health <= 0);
        CullAdvance(es, dead, before, i, kept, gained);
        if es[i].health <= 0 {
          gained := gained + ENEMY_POINTS;
        } else {
          kept := kept + [es[i]];
        }
      }
      assert es[..|es|] == es && dead[..|es|] == dead && before[..|es|] == before;
      KeptLiving(es, dead);
      KeptDistinct(es, dead);
    }

    /**
     * The player, the camera and every platform as the placement passes
     * leave them: each drawn at its world x less the scroll, the ground at
     * minus the scroll, each collision box following its platform.
     */
    predicate Placed()
      reads this`scroll, this`ground, player`rect, player`worldX, set p | p in platforms
    {
      player.rect.x == player.worldX - scroll && ground.x == -scroll &&
      forall p :: p in platforms ==> p.rect.x == p.initialX - scroll && p.collisionRect == CollisionBox(p.rect)
    }

    /**
     * The event loop of one frame: the mode machine moves as `HandleAll`
     * says, and when an event of the game-over screen calls `reset_game` the
     * world is reset there and then; otherwise the camera, the player and
     * the enemy group are left as they were.
     */
    method HandleEvents(events: seq<Event>, actions: seq<MenuAction>)
      requires Valid() && |actions| == |events|
      modifies this`machine, this`scroll, this`enemies, player`health, player`mana, player`worldX, player`rect
      ensures Valid() && AfterEvents(old(machine), old(player.State()), old(enemies), old(scroll), events, actions)
    {
      ghost var (m0, p0, es0, s0) := (machine, player.State(), enemies, scroll);
      for i := 0 to |events|
        invariant Valid() && AfterEvents(m0, p0, es0, s0, events[..i], actions[..i])
      {
        HandleOne(events[i], actions[i], m0, p0, es0, s0, events[..i], actions[..i]);
        assert events[..i + 1] == events[..i] + [events[i]] && actions[..i + 1] == actions[..i] + [actions[i]];
      }
      assert events[..|events|] == events && actions[..|actions|] == actions;
    }

    /**
     * The machine `HandleAll` gives after `events`, from `m0`; when one of
     * them reset the world, the camera at 0, the player as `ResetPlayer`
     * leaves `p0` and a new enemy at each spawn position; when none did, the
     * camera, the player and the group as they were.
     */
    predicate AfterEvents(m0: Machine, p0: PlayerState, es0: seq<Enemy>, s0: int,
                          events: seq<Event>, actions: seq<MenuAction>)
      reads this`machine, this`scroll, this`enemies, player, set e | e in enemies
    {
      |actions| == |events| &&
      var h := HandleAll(m0, events, actions);
      machine == h.machine &&
      if h.reset then scroll == 0 && player.State() == ResetPlayer(p0) && Born(enemies, ENEMY_POSITIONS)
      else scroll == s0 && player.State() == p0 && enemies == es0
    }

    /** One event of the event loop, after the events `done`. */
    method HandleOne(ev: Event, action: MenuAction, ghost m0: Machine, ghost p0: PlayerState, ghost es0: seq<Enemy>,
                     ghost s0: int, ghost done: seq<Event>, ghost answers: seq<MenuAction>)
      requires Valid() && AfterEvents(m0, p0, es0, s0, done, answers)
      modifies this`machine, this`scroll, this`enemies, player`health, player`mana, player`worldX, player`rect
      ensures Valid() && AfterEvents(m0, p0, es0, s0, done + [ev], answers + [action])
    {
      HandleAllSnoc(m0, done, answers, ev, action);
      var h := HandleEvent(machine, ev, action);
      SetMachine(h.machine);
      if h.reset {
        ResetPlayerIdempotent(p0);
        ResetGame();
      }
    }

    /** `current_state`, `running` and `game_over` become those of `m`. */
    method SetMachine(m: Machine)
      requires Valid() && Consistent(m)
      modifies this`machine
      ensures Valid() && machine == m
    {
      machine := m;
    }

    /**
     * The playing screen's part of a frame: a player with no health left
     * ends the game; otherwise, unless the game is over, the world ticks as
     * `Tick` says.  When it does not tick, nothing but the mode machine changes.
     */
    method PlayFrame(keys: Keys, now: int, attackDrops: seq<Drop>, magicDrops: seq<Drop>,
                     variants: seq<AttackVariant>, js: seq<Effects.Jitter>)
      requires Valid() && machine.mode == Playing
      requires |attackDrops| == |enemies| && |magicDrops| == |enemies| && |variants| == |enemies|
      requires |js| == |fx.particles|
      modifies this`machine, this`scroll, this`powerUps, this`enemies, this`ground, this`arrowVisible, player,
        fx`trails, fx`particles, spawner`spawnTimer, set e | e in enemies, set p | p in platforms
      ensures Valid() && machine == FrameCheck(old(machine), old(player.health)).0
      ensures machine.mode == GameOver <==> old(player.health) <= 0
      ensures old(player.health) > 0 ==>
        Placed() && scroll == PlayerMotion(old(player.State()), keys, old(Surfaces()), old(scroll)).1 &&
        (forall k :: 0 <= k < |enemies| ==> enemies[k].health > 0) &&
        fx.particles == Effects.AgeAll(old(fx.particles), js)
      ensures old(player.health) <= 0 ==>
        scroll == old(scroll) && enemies == old(enemies) && player.State() == old(player.State())
    {
      var check := FrameCheck(machine, player.health);
      SetMachine(check.0);
      if check.1 {
        Tick(keys, now, attackDrops, magicDrops, variants, js);
      }
    }

    /**
     * One frame of the playing screen once the game-over check has passed:
     * the player, the enemies, both placement passes, the platforms, the
     * section arrow, the removal of the defeated, the particles and the
     * spawner, in the main loop's order.  `keys` is the keyboard state,
     * `now` the clock in milliseconds, the drops and attack variants are
     * the random draws of the player's hits and of each enemy, `js` the
     * jitter of each particle.
     */
    method Tick(keys: Keys, now: int, attackDrops: seq<Drop>, magicDrops: seq<Drop>,
                variants: seq<AttackVariant>, js: seq<Effects.Jitter>)
      requires Valid() && |attackDrops| == |enemies| && |magicDrops| == |enemies| && |variants| == |enemies|
      requires |js| == |fx.particles|
      modifies this`scroll, this`powerUps, this`enemies, this`ground, this`arrowVisible, player, fx`trails,
        fx`particles, spawner`spawnTimer, set e | e in enemies, set p | p in platforms
      ensures Valid() && Placed()
      ensures scroll == PlayerMotion(old(player.State()), keys, old(Surfaces()), old(scroll)).1
      ensures forall k :: 0 <= k < |enemies| ==> enemies[k].health > 0
      ensures fx.particles == Effects.AgeAll(old(fx.particles), js)
    {
      Advance(keys, attackDrops, magicDrops, variants);
      Finish(now, js);
    }

    /** The player's update, then the enemies' sweep. */
    method Advance(keys: Keys, attackDrops: seq<Drop>, magicDrops: seq<Drop>, variants: seq<AttackVariant>)
      requires Valid() && |attackDrops| == |enemies| && |magicDrops| == |enemies| && |variants| == |enemies|
      modifies this`scroll, this`powerUps, this`enemies, player, fx`trails, set e | e in enemies
      ensures Valid() && fx.particles == old(fx.particles) && forall e :: e in enemies ==> e in old(enemies)
      ensures scroll == PlayerMotion(old(player.State()), keys, old(Surfaces()), old(scroll)).1
    {
      Move(keys, attackDrops, magicDrops);
      UpdateEnemies(variants);
    }

    /** The placement passes, then the section check, the removal, the particles and the spawner. */
    method Finish(now: int, js: seq<Effects.Jitter>)
      requires Valid() && |js| == |fx.particles|
      modifies this`powerUps, this`enemies, this`ground, this`arrowVisible, player`rect, player`score,
        fx`particles, spawner`spawnTimer, (set e | e in enemies)`rect, set p | p in platforms
      ensures Valid() && Placed()
      ensures forall k :: 0 <= k < |enemies| ==> enemies[k].health > 0
      ensures fx.particles == Effects.AgeAll(old(fx.particles), js)
    {
      Place();
      Settle(now, js);
    }

    /** The player's update and the camera scroll it leaves. */
    method Move(keys: Keys, attackDrops: seq<Drop>, magicDrops: seq<Drop>)
      requires Valid() && |attackDrops| == |enemies| && |magicDrops| == |enemies|
      modifies this`scroll, this`powerUps, player, fx`trails, (set e | e in enemies)`health,
        (set e | e in enemies)`isDead, (set e | e in enemies)`anim, (set e | e in enemies)`currentFrame
      ensures Valid() && enemies == old(enemies) && fx.particles == old(fx.particles)
      ensures scroll == PlayerMotion(old(player.State()), keys, old(Surfaces()), old(scroll)).1
    {
      var newScroll, dropped, remaining := UpdatePlayer(keys, attackDrops, magicDrops);
      MoveCamera(newScroll, remaining);
    }

    /** `sync_world_positions`, `update_world_positions` and every `platform.update()`. */
    method Place()
      requires Valid()
      modifies this`ground, this`powerUps, player`rect, (set e | e in enemies)`rect,
        (set p | p in platforms)`rect, (set p | p in platforms)`collisionRect
      ensures Valid() && Placed()
    {
      SyncWorldPositions();
      UpdateWorldPositions();
      UpdatePlatforms();
    }

    /** The section arrow, the removal of the defeated, the particles and the spawner. */
    method Settle(now: int, js: seq<Effects.Jitter>)
      requires Valid() && Placed() && |js| == |fx.particles|
      modifies this`arrowVisible, this`enemies, player`score, fx`particles, spawner`spawnTimer
      ensures Valid() && Placed()
      ensures forall k :: 0 <= k < |enemies| ==> enemies[k].health > 0
      ensures fx.particles == Effects.AgeAll(old(fx.particles), js)
    {
      Tidy();
      Refill(now, js);
    }

    /** The section check, then the removal of the defeated enemies. */
    method Tidy()
      requires Valid() && Placed()
      modifies this`arrowVisible, this`enemies, player`score
      ensures Valid() && Placed()
      ensures forall k :: 0 <= k < |enemies| ==> enemies[k].health > 0
    {
      CheckSectionCleared();
      RemoveDead();
    }

    /** The effects' ageing, then the spawner's turn. */
    method Refill(now: int, js: seq<Effects.Jitter>)
      requires Valid() && Placed() && |js| == |fx.particles|
      requires forall k :: 0 <= k < |enemies| ==> enemies[k].health > 0
      modifies this`enemies, fx`particles, spawner`spawnTimer
      ensures Valid() && Placed()
      ensures forall k :: 0 <= k < |enemies| ==> enemies[k].health > 0
      ensures fx.particles == Effects.AgeAll(old(fx.particles), js)
    {
      AgeParticles(js);
      var spawned := Spawn(now);
    }

    /** `effect_manager.update()`. */
    method AgeParticles(js: seq<Effects.Jitter>)
      requires Valid() && Placed() && |js| == |fx.particles|
      modifies fx`particles
      ensures Valid() && Placed() && enemies == old(enemies)
      ensures fx.particles == Effects.AgeAll(old(fx.particles), js)
    {
      fx.Update(js);
    }

    /** The surfaces the player lands on: every platform's collision box, then the ground. */
    function Surfaces(): (r: seq<Rect>)
      reads this`ground, set p | p in platforms
      ensures |r| == |platforms| + 1 && r[|platforms|] == ground
    {
      PlayerSurfaces(CollisionRects(platforms), ground)
    }

    /**
     * `player.update(keys, platforms, ground, enemies)`: the player, the
     * camera scroll and the power-ups as `PlayerTick` leaves them, the
     * enemies struck as `Strikes` says; returns the power-ups the hits dropped.
     */
    method UpdatePlayer(keys: Keys, attackDrops: seq<Drop>, magicDrops: seq<Drop>)
      returns (newScroll: int, dropped: seq<PowerUp>, remaining: seq<PowerUp>)
      requires Valid() && |attackDrops| == |enemies| && |magicDrops| == |enemies|
      modifies player, fx`trails, (set e | e in enemies)`health, (set e | e in enemies)`isDead,
        (set e | e in enemies)`anim, (set e | e in enemies)`currentFrame
      ensures Valid() && enemies == old(enemies)
      ensures PlayerOutcome(player.State(), newScroll, remaining) ==
        PlayerTick(old(player.State()), keys, old(Surfaces()), scroll, powerUps + dropped)
      ensures Strikes(PlayerMotion(old(player.State()), keys, old(Surfaces()), scroll).0, keys,
                      old(StatesOf(enemies)), StatesOf(enemies), attackDrops, magicDrops, dropped)
    {
      var surfaces := Surfaces();
      newScroll, dropped, remaining := player.Update(keys, surfaces, enemies, scroll, powerUps, attackDrops, magicDrops, fx);
    }

    /** The new camera scroll and power-up group the player's update produced. */
    method MoveCamera(newScroll: int, remaining: seq<PowerUp>)
      requires Valid()
      modifies this`scroll, this`powerUps
      ensures Valid() && scroll == newScroll && powerUps == remaining && enemies == old(enemies)
    {
      scroll := newScroll;
      powerUps := remaining;
    }

    /** `enemy_spawner.update()` at clock reading `now`, the new enemies joining the group. */
    method Spawn(now: int) returns (spawned: seq<Enemy>)
      requires Valid() && Placed()
      modifies this`enemies, spawner`spawnTimer
      ensures Valid() && Placed() && enemies == old(enemies) + spawned
      ensures var r := SpawnTick(spawner.positions, old(spawner.spawnTimer), WorldXs(old(StatesOf(enemies))), now);
        spawner.spawnTimer == r.timers && Born(spawned, r.spawned)
      ensures forall k :: 0 <= k < |spawned| ==> fresh(spawned[k]) && spawned[k].health == ENEMY_MAX_HEALTH
    {
      spawned := spawner.Update(enemies, now);
      enemies := enemies + spawned;
    }

    /**
     * The enemies' sweep: every enemy of the group ticks in order, each
     * possibly hitting the player; those that removed themselves leave the
     * group.
     */
    method UpdateEnemies(variants: seq<AttackVariant>)
      requires Valid() && |variants| == |enemies|
      modifies this`enemies, (set e | e in enemies), player`health
      ensures Valid() && fx.particles == old(fx.particles)
      ensures var r := SweepEnemies(old(StatesOf(enemies)), player.worldX, player.rect, old(player.health),
                                    ground, old(PlatformRects(platforms)), scroll, variants);
        StatesOf(old(enemies)) == r.states && player.health == r.playerHealth &&
        enemies == Kept(old(enemies), r.killed)
    {
      var killed := SweepAll(variants);
      Prune(killed);
    }

    /** Every enemy of the group ticks in order; the group itself is kept as it was. */
    method SweepAll(variants: seq<AttackVariant>) returns (killed: seq<bool>)
      requires Valid() && |variants| == |enemies|
      modifies (set e | e in enemies), player`health
      ensures Valid() && enemies == old(enemies) && fx.particles == old(fx.particles)
      ensures var r := SweepEnemies(old(StatesOf(enemies)), player.worldX, player.rect, old(player.health),
                                    ground, old(PlatformRects(platforms)), scroll, variants);
        StatesOf(enemies) == r.states && player.health == r.playerHealth && killed == r.killed
    {
      var rects := PlatformRects(platforms);
      killed := SweepGroup(enemies, player, ground, rects, scroll, variants);
    }

    /** The enemies `killed` marks leave the group, the others keep their order. */
    method Prune(killed: seq<bool>)
      requires Valid() && |killed| == |enemies|
      modifies this`enemies
      ensures Valid() && enemies == Kept(old(enemies), killed)
    {
      KeptDistinct(enemies, killed);
      enemies := Kept(enemies, killed);
    }

    /** `enemy.update(player, ground, platforms)` for each enemy of `es`, in order. */
    static method SweepGroup(es: seq<Enemy>, player: Player, ground: Rect, platforms: seq<Rect>, scroll: int,
                             variants: seq<AttackVariant>) returns (killed: seq<bool>)
      requires Distinct(es) && |variants| == |es| && player.Valid()
      modifies (set e | e in es), player`health
      ensures player.Valid()
      ensures var r := SweepEnemies(old(StatesOf(es)), player.worldX, player.rect, old(player.health),
                                    ground, platforms, scroll, variants);
        StatesOf(es) == r.states && player.health == r.playerHealth && killed == r.killed
    {
      var a := Arena(player.worldX, player.rect, player.health, ground, platforms, scroll);
      ghost var before := StatesOf(es);
      ghost var cur := before;
      ghost var r := Sweep([], [], player.health);
      killed := [];
      for i := 0 to |es|
        invariant Swept(es, i, player, a, variants, before, r, cur) && killed == r.killed
      {
        var gone;
        gone, r, cur := TickOne(es, i, player, a, variants, before, r, cur);
        killed := killed + [gone];
      }
      assert before[..|es|] == before && variants[..|es|] == variants && cur == r.states;
    }

    /**
     * `enemy.update(...)` for the enemy at index `i`, the others left as
     * they were: the sweep's loop step, with the ghost bookkeeping of the
     * states so far (`r`) and of the whole group (`cur`).
     */
    static method TickOne(es: seq<Enemy>, i: nat, player: Player, a: Arena, variants: seq<AttackVariant>,
                          ghost before: seq<EnemyState>, ghost r: Sweep, ghost cur: seq<EnemyState>)
      returns (killed: bool, ghost r': Sweep, ghost cur': seq<EnemyState>)
      requires i < |es| && Swept(es, i, player, a, variants, before, r, cur)
      modifies es[i], player`health
      ensures Swept(es, i + 1, player, a, variants, before, r', cur') && r'.killed == r.killed + [killed]
    {
      ghost var p0 := player.State();
      killed := es[i].Update(player, a.ground, a.platforms, a.scroll, variants[i]);
      assert player.State() == p0.(health := player.health);
      LowerHealthValid(p0, player.health);
      var o := EnemyOutcome(es[i].State(), player.health, killed);
      SweepStep(before, a.playerX, a.playerRect, a.health, a.ground, a.platforms, a.scroll, variants, i, o);
      r' := Sweep(r.states + [o.enemy], r.killed + [killed], o.playerHealth);
      cur' := cur[i := o.enemy];
    }
  }

  /** What every enemy of one sweep ticks against: the player's place and starting health, and the level. */
  datatype Arena = Arena(playerX: int, playerRect: Rect, health: int, ground: Rect, platforms: seq<Rect>, scroll: int)

  /**
   * The sweep's state after its first `i` enemies: those have ticked as
   * `SweepEnemies` says, the rest are as they were (`before`), and the
   * player has only lost health.
   */
  predicate Swept(es: seq<Enemy>, i: nat, player: Player, a: Arena, variants: seq<AttackVariant>,
                  before: seq<EnemyState>, r: Sweep, cur: seq<EnemyState>)
    reads player, set e | e in es
  {
    Distinct(es) && i <= |es| == |variants| == |before| &&
    player.worldX == a.playerX && player.rect == a.playerRect && player.Valid() &&
    r == SweepEnemies(before[..i], a.playerX, a.playerRect, a.health, a.ground, a.platforms, a.scroll, variants[..i]) &&
    player.health == r.playerHealth && Agree(es, cur) &&
    (forall k :: 0 <= k < i ==> cur[k] == r.states[k]) &&
    (forall k :: i <= k < |es| ==> cur[k] == before[k])
  }

  /** Losing health keeps a player valid: health has no floor. */
  lemma LowerHealthValid(p: PlayerState, h: int)
    requires ValidPlayer(p) && h <= p.health
    ensures ValidPlayer(p.(health := h))
  {
  }

  /** Every enemy whose state is among the living has health left. */
  lemma AllAlive(es: seq<Enemy>, states: seq<EnemyState>)
    requires StatesOf(es) == Living(states)
    ensures forall k :: 0 <= k < |es| ==> es[k].health > 0
  {
    forall k | 0 <= k < |es|
      ensures es[k].health > 0
    {
      assert StatesOf(es)[k] in Living(states);
    }
  }

  /** Each enemy of `es` is in the state at the same index of `states`. */
  predicate Agree(es: seq<Enemy>, states: seq<EnemyState>)
    reads set e | e in es
  {
    |es| == |states| && forall k :: 0 <= k < |es| ==> es[k].State() == states[k]
  }

  /** The sweep over one more enemy runs that enemy's tick after the sweep over those before it. */
  lemma SweepStep(es: seq<EnemyState>, playerX: int, playerRect: Rect, health: int, ground: Rect,
                  platforms: seq<Rect>, scroll: int, variants: seq<AttackVariant>, i: nat, o: EnemyOutcome)
    requires |variants| == |es| && i < |es|
    requires var prev := SweepEnemies(es[..i], playerX, playerRect, health, ground, platforms, scroll, variants[..i]);
      o == EnemyTick(es[i], playerX, playerRect, prev.playerHealth, ground, platforms, scroll, variants[i])
    ensures var prev := SweepEnemies(es[..i], playerX, playerRect, health, ground, platforms, scroll, variants[..i]);
      SweepEnemies(es[..i + 1], playerX, playerRect, health, ground, platforms, scroll, variants[..i + 1]) ==
      Sweep(prev.states + [o.enemy], prev.killed + [o.killed], o.playerHealth)
  {
    assert es[..i + 1][..i] == es[..i] && variants[..i + 1][..i] == variants[..i];
  }

  /** One more enemy of the group: it is kept when it has health left, counted as fallen otherwise. */
  lemma CullStep(es: seq<EnemyState>, i: nat)
    requires i < |es|
    ensures Living(es[..i + 1]) == if es[i].health > 0 then Living(es[..i]) + [es[i]] else Living(es[..i])
    ensures Fallen(es[..i + 1]) == Fallen(es[..i]) + if es[i].health <= 0 then 1 else 0
  {
    assert es[..i + 1][..i] == es[..i];
  }

  /** The removal loop after its first `i` enemies: the living ones kept, in order, and the fallen ones counted. */
  predicate Culled(es: seq<Enemy>, dead: seq<bool>, before: seq<EnemyState>, i: nat, kept: seq<Enemy>, gained: int)
  {
    |dead| == |es| == |before| && i <= |es| &&
    kept == Kept(es[..i], dead[..i]) && gained == ENEMY_POINTS * Fallen(before[..i])
  }

  /** The removal loop's step over enemy `i`, whose state is `before[i]`. */
  lemma CullAdvance(es: seq<Enemy>, dead: seq<bool>, before: seq<EnemyState>, i: nat, kept: seq<Enemy>, gained: int)
    requires Culled(es, dead, before, i, kept, gained) && i < |es| && dead[i] == (before[i].health <= 0)
    ensures Culled(es, dead, before, i + 1, if dead[i] then kept else kept + [es[i]],
                   if dead[i] then gained + ENEMY_POINTS else gained)
  {
    CullStep(before, i);
    KeptStep(es, dead, i);
  }

  /** Which enemies have no health left. */
  function Defeated(es: seq<EnemyState>): (r: seq<bool>)
    ensures |r| == |es| && forall i :: 0 <= i < |es| ==> (r[i] <==> es[i].health <= 0)
  {
    seq(|es|, i requires 0 <= i < |es| => es[i].health <= 0)
  }

  lemma KeptStep<T>(xs: seq<T>, drop: seq<bool>, i: nat)
    requires |drop| == |xs| && i < |xs|
    ensures Kept(xs[..i + 1], drop[..i + 1]) == if drop[i] then Kept(xs[..i], drop[..i]) else Kept(xs[..i], drop[..i]) + [xs[i]]
  {
    assert xs[..i + 1][..i] == xs[..i] && drop[..i + 1][..i] == drop[..i];
  }

  /** Keeping the enemies that are not defeated keeps exactly the living ones' states. */
  lemma {:induction false} KeptLiving(es: seq<Enemy>, dead: seq<bool>)
    requires dead == Defeated(StatesOf(es))
    ensures StatesOf(Kept(es, dead)) == Living(StatesOf(es))
    decreases |es|
  {
    if es != [] {
      var n := |es| - 1;
      assert StatesOf(es)[..n] == StatesOf(es[..n]);
      assert dead[..n] == Defeated(StatesOf(es[..n]));
      KeptLiving(es[..n], dead[..n]);
      var prev := Kept(es[..n], dead[..n]);
      if !dead[n] {
        assert (prev + [es[n]])[..|prev|] == prev;
      }
    }
  }

  /** Dropping enemies from a group of distinct enemies leaves them distinct. */
  lemma {:induction false} KeptDistinct(es: seq<Enemy>, drop: seq<bool>)
    requires |drop| == |es| && Distinct(es)
    ensures Distinct(Kept(es, drop))
    decreases |es|
  {
    if es != [] {
      var n := |es| - 1;
      KeptDistinct(es[..n], drop[..n]);
      if !drop[n] {
        var prev := Kept(es[..n], drop[..n]);
        assert es[n] !in es[..n];
      }
    }
  }
}
