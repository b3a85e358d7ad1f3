/**
 * The visual-effects bookkeeping: the effect manager's particle list and named
 * trails, and the stand-alone Particle and Trail objects.  Colours, sizes and
 * positions are kept; drawing is not modelled.  Every random draw the source
 * makes (angle, size factor, lifetime, colour jitter, velocity jitter) is an
 * input.
 */
module Effects {
  import opened Numeric

  datatype Color = Color(r: int, g: int, b: int)

  datatype Point = Point(x: int, y: int)

  // ---------------------------------------------------------------------------
  // Bounded FIFO lists (`append`, then one `pop(0)` when over the limit)
  // ---------------------------------------------------------------------------

  /** Appends `p` and, when the list is then longer than `limit`, drops its oldest item once. */
  function BoundedAppend<T>(s: seq<T>, p: T, limit: int): seq<T>
  {
    if |s| + 1 > limit then (s + [p])[1..] else s + [p]
  }

  /** The newest `n` items of `q`. */
  function Newest<T>(q: seq<T>, n: nat): seq<T>
  {
    if |q| <= n then q else q[|q| - n..]
  }

  /** Appending the points of `ps` one after another. */
  function AppendAll<T>(s: seq<T>, ps: seq<T>, limit: int): seq<T>
    decreases |ps|
  {
    if ps == [] then s else AppendAll(BoundedAppend(s, ps[0], limit), ps[1..], limit)
  }

  /** One append on a list within its bound keeps it within the bound, keeps the new point last and drops only the oldest. */
  lemma BoundedAppendFifo<T>(s: seq<T>, p: T, limit: int)
    requires 1 <= limit && |s| <= limit
    ensures |BoundedAppend(s, p, limit)| == Min(limit, |s| + 1)
    ensures BoundedAppend(s, p, limit) == Newest(s + [p], limit)
    ensures BoundedAppend(s, p, limit)[|BoundedAppend(s, p, limit)| - 1] == p
  {
  }

  /** Keeping the newest `n` items before appending more does not change the newest `n` items afterwards. */
  lemma NewestOfNewest<T>(a: seq<T>, b: seq<T>, n: nat)
    ensures Newest(Newest(a, n) + b, n) == Newest(a + b, n)
  {
    if |a| > n {
      var x := Newest(a, n) + b;
      var y := a + b;
      assert |x| == n + |b|;
      forall j | |b| <= j < |x|
        ensures x[j] == y[|a| - n + j]
      {
        if j < n {
          assert x[j] == a[|a| - n + j];
        } else {
          assert x[j] == b[j - n];
        }
      }
      assert x[|b|..] == y[|a| + |b| - n..];
    }
  }

  /** A bounded list fed any number of points holds exactly the newest `limit` of everything it was fed. */
  lemma {:induction false} AppendAllKeepsNewest<T>(s: seq<T>, ps: seq<T>, limit: int)
    requires 1 <= limit && |s| <= limit
    ensures AppendAll(s, ps, limit) == Newest(s + ps, limit)
    decreases |ps|
  {
    if ps == [] {
      assert s + ps == s;
    } else {
      var s' := BoundedAppend(s, ps[0], limit);
      BoundedAppendFifo(s, ps[0], limit);
      AppendAllKeepsNewest(s', ps[1..], limit);
      NewestOfNewest(s + [ps[0]], ps[1..], limit);
      assert s + ps == (s + [ps[0]]) + ps[1..];
    }
  }

  // ---------------------------------------------------------------------------
  // Particle records of the effect manager
  // ---------------------------------------------------------------------------

  /** One entry of `EffectManager.particles` (a dict in the source). */
  datatype ParticleRec = ParticleRec(
    x: real, y: real,
    speedX: real, speedY: real,
    color: Color,
    alpha: int,
    size: real,
    lifetime: int,
    originalSize: real,
    glowSize: real)

  /**
   * The random draws behind one new particle: the cosine and sine of its
   * angle, the factor in [0.8, 1.2] applied to its size, a lifetime in
   * [6, 10] used when none is given, and the per-channel colour jitter in [-20, 20].
   */
  datatype SpawnDraw = SpawnDraw(cosA: real, sinA: real, sizeFactor: real, lifetime: int, jitter: Color)

  /** The random velocity jitter in [-0.1, 0.1] added to one particle on one update. */
  datatype Jitter = Jitter(dx: real, dy: real)

  /** A colour channel after jitter, clamped into [0, 255]. */
  function Channel(c: int, jitter: int): (v: int)
    ensures 0 <= v <= 255
    ensures 0 <= c + jitter <= 255 ==> v == c + jitter
    ensures c + jitter < 0 ==> v == 0
    ensures c + jitter > 255 ==> v == 255
  {
    Min(255, Max(0, c + jitter))
  }

  /** The particle `create_particles` builds from one set of draws. */
  function NewParticle(x: real, y: real, color: Color, speed: real, alpha: int, size: real,
                       lifetime: Option<int>, d: SpawnDraw): (p: ParticleRec)
    ensures p.x == x && p.y == y
    ensures 0 <= p.color.r <= 255 && 0 <= p.color.g <= 255 && 0 <= p.color.b <= 255
    ensures p.alpha <= 250 && (alpha <= 250 ==> p.alpha == alpha)
    ensures lifetime.Some? ==> p.lifetime == lifetime.value
    ensures lifetime.None? && 6 <= d.lifetime <= 10 ==> 6 <= p.lifetime <= 10
    ensures p.originalSize == p.size && p.glowSize == 2.0 * p.size
  {
    var sz := size * d.sizeFactor;
    ParticleRec(
      x, y,
      d.cosA * speed, d.sinA * speed,
      Color(Channel(color.r, d.jitter.r), Channel(color.g, d.jitter.g), Channel(color.b, d.jitter.b)),
      Min(alpha, 250),
      sz,
      if lifetime.Some? then lifetime.value else d.lifetime,
      sz,
      sz * 2.0)
  }

  /** The alpha a particle of the given alpha gets when its lifetime has just become `lifetime`. */
  function FadedAlpha(alpha: int, lifetime: int): int
  {
    Trunc(alpha as real * (0.7 + (lifetime as real / 10.0) * 0.3))
  }

  /** One particle after one `update`: moved, one tick older, faded, shrunk, and jittered. */
  function Aged(p: ParticleRec, j: Jitter): (q: ParticleRec)
    ensures q.lifetime == p.lifetime - 1
    ensures q.alpha == FadedAlpha(p.alpha, q.lifetime)
    ensures q.x == p.x + p.speedX && q.y == p.y + p.speedY
    ensures q.color == p.color && q.originalSize == p.originalSize
  {
    var life := p.lifetime - 1;
    var ratio := life as real / 10.0;
    var size := p.originalSize * (0.3 + ratio * 0.7);
    p.(x := p.x + p.speedX, y := p.y + p.speedY,
       lifetime := life,
       alpha := FadedAlpha(p.alpha, life),
       size := size,
       glowSize := size * (1.5 + ratio),
       speedX := p.speedX + j.dx, speedY := p.speedY + j.dy)
  }

  /** A particle is removed when `lifetime <= 0 or alpha < 30`; this is the complement. */
  predicate Survives(p: ParticleRec)
  {
    p.lifetime > 0 && p.alpha >= 30
  }

  /** The particle list after one `update`: every particle aged once, in order, the expired ones removed. */
  function AgeAll(ps: seq<ParticleRec>, js: seq<Jitter>): seq<ParticleRec>
    requires |js| == |ps|
    decreases |ps|
  {
    if ps == [] then []
    else
      var q := Aged(ps[|ps| - 1], js[|ps| - 1]);
      AgeAll(ps[..|ps| - 1], js[..|ps| - 1]) + (if Survives(q) then [q] else [])
  }

  /** After an update every particle left is alive (`lifetime > 0`) and visible (`alpha >= 30`), and none was added. */
  lemma {:induction false} AgeAllLeavesOnlySurvivors(ps: seq<ParticleRec>, js: seq<Jitter>)
    requires |js| == |ps|
    ensures |AgeAll(ps, js)| <= |ps|
    ensures forall k :: 0 <= k < |AgeAll(ps, js)| ==> AgeAll(ps, js)[k].lifetime > 0 && AgeAll(ps, js)[k].alpha >= 30
    decreases |ps|
  {
    if ps != [] {
      AgeAllLeavesOnlySurvivors(ps[..|ps| - 1], js[..|ps| - 1]);
    }
  }

  /**
   * Every particle is visited once: a particle is in the updated list exactly
   * when it is the aged version of some old particle that survives its ageing.
   */
  lemma {:induction false} AgeAllVisitsEach(ps: seq<ParticleRec>, js: seq<Jitter>)
    requires |js| == |ps|
    ensures forall i :: 0 <= i < |ps| && Survives(Aged(ps[i], js[i])) ==> Aged(ps[i], js[i]) in AgeAll(ps, js)
    ensures forall q :: q in AgeAll(ps, js) ==> Survives(q) && exists i :: 0 <= i < |ps| && q == Aged(ps[i], js[i])
    decreases |ps|
  {
    if ps != [] {
      var n := |ps| - 1;
      AgeAllVisitsEach(ps[..n], js[..n]);
      forall i | 0 <= i < |ps| && Survives(Aged(ps[i], js[i]))
        ensures Aged(ps[i], js[i]) in AgeAll(ps, js)
      {
        if i < n {
          assert ps[..n][i] == ps[i] && js[..n][i] == js[i];
        }
      }
      forall q | q in AgeAll(ps, js)
        ensures Survives(q) && exists i :: 0 <= i < |ps| && q == Aged(ps[i], js[i])
      {
        if q in AgeAll(ps[..n], js[..n]) {
          var i :| 0 <= i < n && q == Aged(ps[..n][i], js[..n][i]);
          assert ps[..n][i] == ps[i] && js[..n][i] == js[i];
        }
      }
    }
  }

  /** While the new lifetime is at most 10 (and not below -23) an update never raises alpha nor makes it negative. */
  lemma FadeNeverBrightens(alpha: int, lifetime: int)
    requires 0 <= alpha && -23 <= lifetime <= 10
    ensures 0 <= FadedAlpha(alpha, lifetime) <= alpha
  {
    var f := 0.7 + (lifetime as real / 10.0) * 0.3;
    assert 0.0 <= f <= 1.0;
    var a := alpha as real;
    MulMonotone(0.0, f, a);
    MulMonotone(f, 1.0, a);
    assert 0.0 <= f * a <= a;
    assert a * f == f * a;
    TruncMonotone(0.0, a * f);
    TruncMonotone(a * f, a);
  }

  datatype TrailRec = TrailRec(positions: seq<Point>, maxLength: int, color: Color, fadeSpeed: int)

  /** Every trail was made by `create_trail`: length 3, and no more than 3 points held. */
  predicate TrailsBounded(trails: map<string, TrailRec>)
  {
    forall n :: n in trails ==> trails[n].maxLength == 3 && |trails[n].positions| <= 3
  }

  /** The effect manager: a particle list appended to and filtered in place, and trails by name. */
  class EffectManager {
    var particles: seq<ParticleRec>
    var trails: map<string, TrailRec>

    /** The trails stay as `create_trail` and `update_trail` leave them. */
    predicate Valid()
      reads this`trails
    {
      TrailsBounded(trails)
    }

    constructor ()
      ensures Valid() && particles == [] && trails == map[]
    {
      particles := [];
      trails := map[];
    }

    /** `create_particles`: appends one particle per set of draws, leaving the existing ones untouched. */
    method CreateParticles(x: real, y: real, color: Color, count: nat, speed: real, alpha: int,
                           size: real, lifetime: Option<int>, draws: seq<SpawnDraw>)
      requires |draws| == count
      modifies this`particles
      ensures |particles| == |old(particles)| + count
      ensures particles[..|old(particles)|] == old(particles)
      ensures forall k :: 0 <= k < count ==>
        particles[|old(particles)| + k] == NewParticle(x, y, color, speed, alpha, size, lifetime, draws[k])
    {
      var i := 0;
      while i < count
        invariant 0 <= i <= count
        invariant |particles| == |old(particles)| + i
        invariant particles[..|old(particles)|] == old(particles)
        invariant forall k :: 0 <= k < i ==>
          particles[|old(particles)| + k] == NewParticle(x, y, color, speed, alpha, size, lifetime, draws[k])
      {
        particles := particles + [NewParticle(x, y, color, speed, alpha, size, lifetime, draws[i])];
        i := i + 1;
      }
    }

    /** `create_trail`: installs an empty trail of length 3 under `name`, replacing any trail of that name. */
    method CreateTrail(name: string, color: Color)
      requires Valid()
      modifies this`trails
      ensures Valid()
      ensures trails == old(trails)[name := TrailRec([], 3, color, 20)]
    {
      trails := trails[name := TrailRec([], 3, color, 20)];
    }

    /** `update`: ages every particle once (iterating over a copy) and removes the expired ones. */
    method Update(js: seq<Jitter>)
      requires |js| == |particles|
      modifies this`particles
      ensures particles == AgeAll(old(particles), js)
    {
      var all := particles;
      var kept: seq<ParticleRec> := [];
      var i := 0;
      while i < |all|
        invariant 0 <= i <= |all|
        invariant kept == AgeAll(all[..i], js[..i])
      {
        var q := Aged(all[i], js[i]);
        assert all[..i + 1][..i] == all[..i] && js[..i + 1][..i] == js[..i];
        if Survives(q) {
          kept := kept + [q];
        }
        i := i + 1;
      }
      assert all[..|all|] == all && js[..|all|] == js;
      particles := kept;
    }

    /** `update_trail`: a no-op for an unknown name, otherwise a bounded append to that trail. */
    method UpdateTrail(name: string, x: int, y: int)
      requires Valid()
      modifies this`trails
      ensures Valid()
      ensures trails == WithTrailPoint(old(trails), name, Point(x, y))
      ensures name in old(trails) ==> trails[name].positions == Newest(old(trails)[name].positions + [Point(x, y)], 3)
    {
      TrailPointKeepsBound(trails, name, Point(x, y));
      if name in trails {
        TrailPointFifo(trails, name, Point(x, y));
      }
      if name in trails {
        var t := trails[name];
        trails := trails[name := t.(positions := BoundedAppend(t.positions, Point(x, y), t.maxLength))];
      }
    }
  }

  /**
   * The trails after `update_trail(name, p)`: unchanged for an unknown name;
   * otherwise that trail alone gains `p` as its newest point and stays within
   * its `max_length`.
   */
  function WithTrailPoint(trails: map<string, TrailRec>, name: string, p: Point): (r: map<string, TrailRec>)
    ensures name !in trails ==> r == trails
    ensures r.Keys == trails.Keys
    ensures forall n :: n in trails && n != name ==> r[n] == trails[n]
    ensures name in trails ==> r[name] == trails[name].(positions := r[name].positions)
  {
    if name in trails then
      var t := trails[name];
      trails[name := t.(positions := BoundedAppend(t.positions, p, t.maxLength))]
    else trails
  }

  /** A known trail gains the point as its newest one and keeps at most `max_length` points, dropping the oldest. */
  lemma TrailPointFifo(trails: map<string, TrailRec>, name: string, p: Point)
    requires name in trails && 1 <= trails[name].maxLength && |trails[name].positions| <= trails[name].maxLength
    ensures |WithTrailPoint(trails, name, p)[name].positions| <= trails[name].maxLength
    ensures WithTrailPoint(trails, name, p)[name].positions == Newest(trails[name].positions + [p], trails[name].maxLength)
  {
    BoundedAppendFifo(trails[name].positions, p, trails[name].maxLength);
  }

  /** `update_trail` keeps every trail at length 3 with at most 3 points. */
  lemma TrailPointKeepsBound(trails: map<string, TrailRec>, name: string, p: Point)
    requires TrailsBounded(trails)
    ensures TrailsBounded(WithTrailPoint(trails, name, p))
  {
    if name in trails {
      TrailPointFifo(trails, name, p);
    }
  }

  // ---------------------------------------------------------------------------
  // The stand-alone Particle and Trail classes
  // ---------------------------------------------------------------------------

  /**
   * `Particle.update`'s alpha: 255 times the square of the remaining fraction
   * of life, floored at 0; `None` when the maximum lifetime is 0, where the
   * division raises `ZeroDivisionError`.
   */
  function LifetimeAlpha(lifetime: int, maxLifetime: int): (a: Option<int>)
    ensures a.None? <==> maxLifetime == 0
    ensures a.Some? ==> a.value >= 0
  {
    if maxLifetime == 0 then None
    else
      var p := lifetime as real / maxLifetime as real;
      Some(Max(0, Trunc(255.0 * (p * p))))
  }

  /** While some life remains the alpha stays within [0, 255], and it never grows as the particle ages. */
  lemma LifetimeAlphaFades(l1: int, l2: int, m: int)
    requires 0 <= l1 <= l2 <= m && m > 0
    ensures LifetimeAlpha(l1, m).value <= LifetimeAlpha(l2, m).value <= 255
  {
    var p1 := l1 as real / m as real;
    var p2 := l2 as real / m as real;
    FractionBounds(l1 as real, l2 as real, m as real);
    SquareMonotone(p1, p2);
    var s1, s2 := p1 * p1, p2 * p2;
    ScaledTruncMonotone(s1, s2);
    assert LifetimeAlpha(l1, m).value == Max(0, Trunc(255.0 * s1));
    assert LifetimeAlpha(l2, m).value == Max(0, Trunc(255.0 * s2));
  }

  lemma SquareMonotone(p1: real, p2: real)
    requires 0.0 <= p1 <= p2 <= 1.0
    ensures 0.0 <= p1 * p1 <= p2 * p2 <= 1.0
  {
    MulMonotone(0.0, p1, p1);
    assert 0.0 <= p1 * p1;
    MulMonotone(p1, p2, p1);
    assert p2 * p1 == p1 * p2;
    MulMonotone(p1, p2, p2);
    assert p1 * p1 <= p2 * p2;
    MulMonotone(p2, 1.0, p2);
    assert p2 * p2 <= p2;
  }

  lemma ScaledTruncMonotone(s1: real, s2: real)
    requires 0.0 <= s1 <= s2 <= 1.0
    ensures 0 <= Trunc(255.0 * s1) <= Trunc(255.0 * s2) <= 255
  {
    TruncMonotone(255.0 * s1, 255.0 * s2);
    TruncMonotone(255.0 * s2, 255.0);
  }

  lemma FractionBounds(a: real, b: real, m: real)
    requires 0.0 <= a <= b <= m && m > 0.0
    ensures 0.0 <= a / m <= b / m <= 1.0
  {
    assert a / m * m == a && b / m * m == b;
  }

  lemma MulMonotone(a: real, b: real, c: real)
    requires a <= b && 0.0 <= c
    ensures a * c <= b * c
  {
  }

  lemma TruncMonotone(a: real, b: real)
    requires 0.0 <= a <= b
    ensures Trunc(a) <= Trunc(b)
  {
  }

  class Particle {
    var x: real
    var y: real
    var color: Color
    var alpha: int
    var size: real
    var speed: real
    var lifetime: int
    var maxLifetime: int
    var dx: real
    var dy: real

    /** A particle moving at `speed` along the drawn angle, whose cosine and sine are given. */
    constructor (x: real, y: real, color: Color, alpha: int, size: real, speed: real, lifetime: int,
                 cosA: real, sinA: real)
      ensures this.x == x && this.y == y && this.color == color && this.alpha == alpha
      ensures this.size == size && this.speed == speed
      ensures this.lifetime == lifetime && maxLifetime == lifetime
      ensures dx == cosA * speed && dy == sinA * speed
    {
      this.x, this.y := x, y;
      this.color, this.alpha, this.size, this.speed := color, alpha, size, speed;
      this.lifetime, maxLifetime := lifetime, lifetime;
      dx, dy := cosA * speed, sinA * speed;
    }

    /**
     * Moves, ages one tick, recomputes alpha from the remaining life, and
     * reports whether any life is left.  With a maximum lifetime of 0 the
     * move and the ageing happen, then the alpha division raises: `None`,
     * alpha untouched.
     */
    method Update() returns (alive: Option<bool>)
      modifies this`x, this`y, this`lifetime, this`alpha
      ensures x == old(x) + dx && y == old(y) + dy
      ensures lifetime == old(lifetime) - 1
      ensures alive.None? <==> maxLifetime == 0
      ensures alpha == (if maxLifetime == 0 then old(alpha) else LifetimeAlpha(lifetime, maxLifetime).value)
      ensures alive.Some? ==> (alive.value <==> lifetime > 0)
    {
      x := x + dx;
      y := y + dy;
      lifetime := lifetime - 1;
      var a := LifetimeAlpha(lifetime, maxLifetime);
      if a.None? {
        return None;
      }
      alpha := a.value;
      alive := Some(lifetime > 0);
    }
  }

  class Trail {
    var color: Color
    var alpha: int
    var length: int
    var points: seq<Point>

    constructor (color: Color, alpha: int, length: int)
      ensures this.color == color && this.alpha == alpha && this.length == length && points == []
    {
      this.color, this.alpha, this.length := color, alpha, length;
      points := [];
    }

    /** `add_point`: appends the point and drops the oldest one when the trail is longer than `length`. */
    method AddPoint(x: int, y: int)
      modifies this`points
      ensures points == BoundedAppend(old(points), Point(x, y), length)
    {
      points := points + [Point(x, y)];
      if |points| > length {
        points := points[1..];
      }
    }
  }
}
