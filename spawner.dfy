/**
 * The enemy spawner: a fixed list of spawn positions, each with its own
 * respawn timer, refilling the map while fewer than three enemies remain.
 */
module Spawner {
  import opened Numeric
  import opened Config
  import opened Entities

  /** A spawn position: the world x of the enemy's left edge and the y of its bottom edge. */
  datatype SpawnPos = SpawnPos(x: int, bottom: int)

  /** The game's two spawn positions, on the ground below the second and the sixth platform. */
  const ENEMY_POSITIONS: seq<SpawnPos> := [SpawnPos(450, 500), SpawnPos(1450, 500)]

  /** Some enemy, standing at one of the world xs in `xs`, is less than 50 px from `x`. */
  predicate Occupied(xs: seq<int>, x: int)
  {
    exists i :: 0 <= i < |xs| && Abs(xs[i] - x) < SPAWN_CLEARANCE
  }

  /** The world x of each enemy, in group order. */
  function WorldXs(es: seq<EnemyState>): (r: seq<int>)
    ensures |r| == |es| && forall i :: 0 <= i < |es| ==> r[i] == es[i].worldX
  {
    seq(|es|, i requires 0 <= i < |es| => es[i].worldX)
  }

  /** The world x of each spawn position, in order. */
  function XsOf(ps: seq<SpawnPos>): (r: seq<int>)
    ensures |r| == |ps| && forall i :: 0 <= i < |ps| ==> r[i] == ps[i].x
  {
    seq(|ps|, i requires 0 <= i < |ps| => ps[i].x)
  }

  /** A fresh enemy at each of the positions, in order. */
  function NewEnemies(ps: seq<SpawnPos>): (r: seq<EnemyState>)
    ensures |r| == |ps| && forall i :: 0 <= i < |ps| ==> r[i] == NewEnemy(ps[i].x, ps[i].bottom)
  {
    seq(|ps|, i requires 0 <= i < |ps| => NewEnemy(ps[i].x, ps[i].bottom))
  }

  /** The result of a spawner update: where enemies were placed, in order, and the new timers. */
  datatype Spawn = Spawn(spawned: seq<SpawnPos>, timers: map<SpawnPos, int>)

  /** Every position has a timer: the spawner's constructor gives each one. */
  predicate Timed(ps: seq<SpawnPos>, timers: map<SpawnPos, int>)
  {
    forall p :: p in ps ==> p in timers
  }

  /**
   * The scan over the spawn positions.  A position spawns when no enemy
   * (counting those this scan has just placed) stands within 50 px of it
   * and its timer is strictly behind `now`; its timer then moves to
   * `now + 1800`.
   */
  function Scan(ps: seq<SpawnPos>, timers: map<SpawnPos, int>, xs: seq<int>, now: int): (r: Spawn)
    requires Timed(ps, timers)
    ensures r.timers.Keys == timers.Keys
    ensures |r.spawned| <= |ps|
    decreases |ps|
  {
    if ps == [] then Spawn([], timers)
    else
      var p := ps[0];
      if !Occupied(xs, p.x) && now > timers[p] then
        var rest := Scan(ps[1..], timers[p := now + RESPAWN_DELAY], xs + [p.x], now);
        Spawn([p] + rest.spawned, rest.timers)
      else Scan(ps[1..], timers, xs, now)
  }

  /**
   * `EnemySpawner.update` at clock reading `now`, with enemies at world xs
   * `xs`: the cap of three enemies is checked once, before the scan.
   */
  function SpawnTick(ps: seq<SpawnPos>, timers: map<SpawnPos, int>, xs: seq<int>, now: int): (r: Spawn)
    requires Timed(ps, timers)
  {
    if |xs| >= MAX_ENEMIES then Spawn([], timers) else Scan(ps, timers, xs, now)
  }

  /** Any two of the positions are at least 50 px apart. */
  predicate Spread(s: seq<SpawnPos>)
  {
    forall i, j :: 0 <= i < j < |s| ==> Abs(s[i].x - s[j].x) >= SPAWN_CLEARANCE
  }

  /** `r` with the positions `d` spawned before it. */
  function After(d: seq<SpawnPos>, r: Spawn): Spawn
  {
    Spawn(d + r.spawned, r.timers)
  }

  /** One step of the scan, as the loop of `update` takes it. */
  lemma ScanUnfold(ps: seq<SpawnPos>, timers: map<SpawnPos, int>, xs: seq<int>, now: int)
    requires Timed(ps, timers) && ps != []
    ensures Scan(ps, timers, xs, now) ==
      if !Occupied(xs, ps[0].x) && now > timers[ps[0]]
      then After([ps[0]], Scan(ps[1..], timers[ps[0] := now + RESPAWN_DELAY], xs + [ps[0].x], now))
      else Scan(ps[1..], timers, xs, now)
  {
  }

  /** The loop of `update` moving past position `i` keeps its scan's result. */
  lemma ScanAdvance(ps: seq<SpawnPos>, i: nat, timers: map<SpawnPos, int>, xs: seq<int>, done: seq<SpawnPos>, now: int,
                    timers': map<SpawnPos, int>, xs': seq<int>, done': seq<SpawnPos>)
    requires i < |ps| && Timed(ps, timers)
    requires if !Occupied(xs, ps[i].x) && now > timers[ps[i]]
      then xs' == xs + [ps[i].x] && done' == done + [ps[i]] && timers' == timers[ps[i] := now + RESPAWN_DELAY]
      else xs' == xs && done' == done && timers' == timers
    ensures Timed(ps, timers')
    ensures After(done, Scan(ps[i..], timers, xs, now)) == After(done', Scan(ps[i + 1..], timers', xs', now))
  {
    assert ps[i..][1..] == ps[i + 1..];
    ScanUnfold(ps[i..], timers, xs, now);
    if done' != done {
      var r := Scan(ps[i + 1..], timers', xs', now);
      assert done + ([ps[i]] + r.spawned) == done' + r.spawned;
    }
  }

  /** An enemy near `x` stays near it when more enemies are added. */
  lemma OccupiedGrows(xs: seq<int>, ys: seq<int>, x: int)
    requires Occupied(xs, x)
    ensures Occupied(xs + ys, x)
  {
    var i :| 0 <= i < |xs| && Abs(xs[i] - x) < SPAWN_CLEARANCE;
    assert (xs + ys)[i] == xs[i];
  }

  /**
   * Every enemy the scan places is at one of the positions, whose timer had
   * run out and which no enemy present before the scan stood near.
   */
  lemma {:induction false} ScanSound(ps: seq<SpawnPos>, timers: map<SpawnPos, int>, xs: seq<int>, now: int)
    requires Timed(ps, timers)
    ensures forall q :: q in Scan(ps, timers, xs, now).spawned ==> q in ps && now > timers[q] && !Occupied(xs, q.x)
    decreases |ps|
  {
    if ps != [] {
      var p := ps[0];
      if !Occupied(xs, p.x) && now > timers[p] {
        var t := timers[p := now + RESPAWN_DELAY];
        var rest := Scan(ps[1..], t, xs + [p.x], now);
        ScanSound(ps[1..], t, xs + [p.x], now);
        forall q | q in rest.spawned
          ensures q in ps && now > timers[q] && !Occupied(xs, q.x)
        {
          assert q != p;
          if Occupied(xs, q.x) {
            OccupiedGrows(xs, [p.x], q.x);
          }
        }
      } else {
        ScanSound(ps[1..], timers, xs, now);
      }
    }
  }

  /** Any two enemies placed by one scan are at least 50 px apart. */
  lemma {:induction false} ScanSpreads(ps: seq<SpawnPos>, timers: map<SpawnPos, int>, xs: seq<int>, now: int)
    requires Timed(ps, timers)
    ensures Spread(Scan(ps, timers, xs, now).spawned)
    decreases |ps|
  {
    if ps != [] {
      var p := ps[0];
      if !Occupied(xs, p.x) && now > timers[p] {
        var t := timers[p := now + RESPAWN_DELAY];
        var rest := Scan(ps[1..], t, xs + [p.x], now);
        ScanSpreads(ps[1..], t, xs + [p.x], now);
        ScanSound(ps[1..], t, xs + [p.x], now);
        assert Scan(ps, timers, xs, now).spawned == [p] + rest.spawned;
        SpreadCons(p, rest.spawned, xs + [p.x]);
      } else {
        assert Scan(ps, timers, xs, now) == Scan(ps[1..], timers, xs, now);
        ScanSpreads(ps[1..], timers, xs, now);
      }
    }
  }

  /** A position clear of `ys`, which holds its own x, keeps its distance from every later one. */
  lemma SpreadCons(p: SpawnPos, rest: seq<SpawnPos>, ys: seq<int>)
    requires Spread(rest) && |ys| > 0 && ys[|ys| - 1] == p.x
    requires forall q :: q in rest ==> !Occupied(ys, q.x)
    ensures Spread([p] + rest)
  {
    var s := [p] + rest;
    forall i, j | 0 <= i < j < |s|
      ensures Abs(s[i].x - s[j].x) >= SPAWN_CLEARANCE
    {
      if i == 0 {
        assert s[j] in rest && !Occupied(ys, s[j].x);
      } else {
        assert s[i] == rest[i - 1] && s[j] == rest[j - 1];
      }
    }
  }

  /**
   * A position the scan passes over although its timer had run out was
   * blocked: some enemy, present before the scan or placed by it, stood
   * within 50 px of it.
   */
  lemma {:induction false} ScanComplete(ps: seq<SpawnPos>, timers: map<SpawnPos, int>, xs: seq<int>, now: int)
    requires Timed(ps, timers)
    ensures var r := Scan(ps, timers, xs, now);
      forall p :: p in ps && p !in r.spawned && now > timers[p] ==> Occupied(xs + XsOf(r.spawned), p.x)
    decreases |ps|
  {
    if ps != [] {
      var p0 := ps[0];
      var r := Scan(ps, timers, xs, now);
      if !Occupied(xs, p0.x) && now > timers[p0] {
        var t := timers[p0 := now + RESPAWN_DELAY];
        var rest := Scan(ps[1..], t, xs + [p0.x], now);
        ScanComplete(ps[1..], t, xs + [p0.x], now);
        assert xs + XsOf(r.spawned) == xs + [p0.x] + XsOf(rest.spawned);
        forall p | p in ps && p !in r.spawned && now > timers[p]
          ensures Occupied(xs + XsOf(r.spawned), p.x)
        {
          assert p != p0 && p in ps[1..] && t[p] == timers[p];
        }
      } else {
        ScanComplete(ps[1..], timers, xs, now);
        forall p | p in ps && p !in r.spawned && now > timers[p]
          ensures Occupied(xs + XsOf(r.spawned), p.x)
        {
          if p == p0 {
            OccupiedGrows(xs, XsOf(r.spawned), p.x);
          } else {
            assert p in ps[1..];
          }
        }
      }
    }
  }

  /** The scan moves the timer of every position it spawns at to `now + 1800` and leaves the others alone. */
  lemma {:induction false} ScanTimers(ps: seq<SpawnPos>, timers: map<SpawnPos, int>, xs: seq<int>, now: int)
    requires Timed(ps, timers)
    ensures var r := Scan(ps, timers, xs, now);
      forall q :: q in timers ==> r.timers[q] == (if q in r.spawned then now + RESPAWN_DELAY else timers[q])
    decreases |ps|
  {
    if ps != [] {
      var p := ps[0];
      if !Occupied(xs, p.x) && now > timers[p] {
        ScanTimers(ps[1..], timers[p := now + RESPAWN_DELAY], xs + [p.x], now);
      } else {
        ScanTimers(ps[1..], timers, xs, now);
      }
    }
  }

  /** With three enemies or more, an update places nothing and touches no timer. */
  lemma SpawnCapped(ps: seq<SpawnPos>, timers: map<SpawnPos, int>, xs: seq<int>, now: int)
    requires Timed(ps, timers) && |xs| >= MAX_ENEMIES
    ensures SpawnTick(ps, timers, xs, now) == Spawn([], timers)
  {
  }

  /**
   * The cap is not re-checked during the scan: two enemies standing away
   * from both spawn positions, with both timers run out, become four.
   */
  lemma SpawnOvershootsCap()
    ensures var r := SpawnTick(ENEMY_POSITIONS, map[SpawnPos(450, 500) := 0, SpawnPos(1450, 500) := 0], [900, 2000], 1);
      r.spawned == ENEMY_POSITIONS && 2 + |r.spawned| > MAX_ENEMIES
  {
    var t := map[SpawnPos(450, 500) := 0, SpawnPos(1450, 500) := 0];
    assert !Occupied([900, 2000], 450);
    var t1 := t[SpawnPos(450, 500) := 1 + RESPAWN_DELAY];
    assert !Occupied([900, 2000, 450], 1450);
    assert Scan([SpawnPos(1450, 500)], t1, [900, 2000, 450], 1).spawned == [SpawnPos(1450, 500)];
  }

  /** `xs` holds the world x of each enemy of `group`. */
  predicate Tracks(group: seq<Enemy>, xs: seq<int>)
    reads set e | e in group
  {
    |group| == |xs| && forall k :: 0 <= k < |group| ==> group[k].worldX == xs[k]
  }

  /** Each enemy of `spawned` is as new, standing at the matching position of `done`. */
  predicate Born(spawned: seq<Enemy>, done: seq<SpawnPos>)
    reads set e | e in spawned
  {
    |spawned| == |done| &&
    forall k :: 0 <= k < |spawned| ==> spawned[k].State() == NewEnemy(done[k].x, done[k].bottom)
  }

  /** An enemy spawner holding its positions and one respawn timer per position. */
  class EnemySpawner {
    const positions: seq<SpawnPos>
    var spawnTimer: map<SpawnPos, int>

    predicate Valid()
      reads this
    {
      Timed(positions, spawnTimer)
    }

    /** `EnemySpawner(positions, ...)`: every timer starts at 0. */
    constructor (positions: seq<SpawnPos>)
      ensures this.positions == positions && Valid()
      ensures spawnTimer == map p | p in positions :: 0
    {
      this.positions := positions;
      spawnTimer := map p | p in positions :: 0;
    }

    /**
     * `EnemySpawner.update` at clock reading `now` (milliseconds) over the
     * enemy group `enemies`: returns the enemies it creates, fresh and
     * standing at the positions `SpawnTick` chooses, and moves the timers
     * as `SpawnTick` says.
     */
    method Update(enemies: seq<Enemy>, now: int) returns (spawned: seq<Enemy>)
      requires Valid()
      modifies this`spawnTimer
      ensures Valid()
      ensures var r := SpawnTick(positions, old(spawnTimer), WorldXs(StatesOf(enemies)), now);
        spawnTimer == r.timers && Born(spawned, r.spawned) && Distinct(spawned) &&
        forall k :: 0 <= k < |spawned| ==> fresh(spawned[k])
    {
      if |enemies| >= MAX_ENEMIES {
        spawned := [];
      } else {
        var timers;
        spawned, timers := ScanPositions(positions, spawnTimer, enemies, now);
        spawnTimer := timers;
      }
    }

    /** The scan of `update` over every spawn position, once the cap is passed. */
    static method ScanPositions(positions: seq<SpawnPos>, spawnTimer: map<SpawnPos, int>, enemies: seq<Enemy>, now: int)
      returns (spawned: seq<Enemy>, timers: map<SpawnPos, int>)
      requires Timed(positions, spawnTimer)
      ensures var r := Scan(positions, spawnTimer, WorldXs(StatesOf(enemies)), now);
        timers == r.timers && Born(spawned, r.spawned) && Distinct(spawned) &&
        forall k :: 0 <= k < |spawned| ==> fresh(spawned[k])
    {
      ghost var xs0 := WorldXs(StatesOf(enemies));
      timers := spawnTimer;
      spawned := [];
      var group := enemies;
      ghost var done: seq<SpawnPos> := [];
      ghost var xs := xs0;
      var i := 0;
      assert positions[0..] == positions;
      while i < |positions|
        invariant 0 <= i <= |positions| && Timed(positions, timers)
        invariant Tracks(group, xs) && Born(spawned, done) && Distinct(spawned)
        invariant forall k :: 0 <= k < |spawned| ==> fresh(spawned[k])
        invariant Scan(positions, spawnTimer, xs0, now) == After(done, Scan(positions[i..], timers, xs, now))
      {
        var pos := positions[i];
        ghost var (t0, xs0', done0) := (timers, xs, done);
        group, spawned, timers, xs, done := Consider(pos, group, spawned, timers, now, xs, done);
        ScanAdvance(positions, i, t0, xs0', done0, now, timers, xs, done);
        i := i + 1;
      }
      assert positions[i..] == [] && done + [] == done;
    }

    /**
     * One position of the scan: with no enemy of `group` within 50 px and
     * its timer run out, an enemy is created there, joins the group and the
     * enemies spawned so far, and the position's timer moves on.
     */
    static method Consider(pos: SpawnPos, group: seq<Enemy>, spawned: seq<Enemy>, timers: map<SpawnPos, int>, now: int,
                           ghost xs: seq<int>, ghost done: seq<SpawnPos>)
      returns (group': seq<Enemy>, spawned': seq<Enemy>, timers': map<SpawnPos, int>, ghost xs': seq<int>, ghost done': seq<SpawnPos>)
      requires Tracks(group, xs) && Born(spawned, done) && Distinct(spawned) && pos in timers
      ensures Tracks(group', xs') && Born(spawned', done') && Distinct(spawned')
      ensures |spawned| <= |spawned'| && spawned'[..|spawned|] == spawned
      ensures forall k :: |spawned| <= k < |spawned'| ==> fresh(spawned'[k])
      ensures if !Occupied(xs, pos.x) && now > timers[pos]
        then xs' == xs + [pos.x] && done' == done + [pos] && timers' == timers[pos := now + RESPAWN_DELAY]
        else xs' == xs && done' == done && timers' == timers
    {
      var present := Present(group, pos.x, xs);
      if !present && now > timers[pos] {
        var e := new Enemy(pos.x, pos.bottom);
        group', spawned', timers' := group + [e], spawned + [e], timers[pos := now + RESPAWN_DELAY];
        xs', done' := xs + [pos.x], done + [pos];
      } else {
        group', spawned', timers', xs', done' := group, spawned, timers, xs, done;
      }
    }

    /** The inner search of `update`: whether an enemy of `group` stands within 50 px of `x`. */
    static method Present(group: seq<Enemy>, x: int, ghost xs: seq<int>) returns (present: bool)
      requires Tracks(group, xs)
      ensures present == Occupied(xs, x)
    {
      present := false;
      var k := 0;
      while k < |group|
        invariant 0 <= k <= |group|
        invariant forall j :: 0 <= j < k ==> Abs(xs[j] - x) >= SPAWN_CLEARANCE
      {
        if Abs(group[k].worldX - x) < SPAWN_CLEARANCE {
          present := true;
          break;
        }
        k := k + 1;
      }
    }
  }
}
