/** The particle pool of the asteroid shooter (`useParticleSystem`):
    explosions and trails append particles whose ids come from one counter,
    and every frame moves, ages and culls them. */
module Particles {
  import opened Geometry
  import opened Lists

  datatype Particle = Particle(
    id: int, x: real, y: real, vx: real, vy: real, life: int, maxLife: int, size: real, color: string)

  /** Frames an explosion spark lives. */
  const EXPLOSION_LIFE: int := 30
  /** Frames a trail particle lives. */
  const TRAIL_LIFE: int := 15
  const DEFAULT_EXPLOSION_COLOR: string := "#ffaa00"
  const DEFAULT_EXPLOSION_COUNT: int := 8
  const TRAIL_COLOR: string := "#ffff00"
  /** The velocity factor applied every frame. */
  const DRAG: real := 0.98

  /** The draws of one explosion spark: the unit heading `(cos, sin)` of its
      jittered angle, and the `Math.random()` values for speed and size. */
  datatype SparkDraw = SparkDraw(cos: real, sin: real, speed: real, size: real)

  /** The `Math.random()` values of one trail particle: position jitter,
      velocity jitter and size. */
  datatype TrailDraw = TrailDraw(dx: real, dy: real, dvx: real, dvy: real, size: real)

  predicate ValidTrailDraw(d: TrailDraw)
  {
    Unit(d.dx) && Unit(d.dy) && Unit(d.dvx) && Unit(d.dvy) && Unit(d.size)
  }

  /** One explosion spark at (x, y), flying along its heading at a speed
      between 2 and 6. */
  function Spark(id: int, x: real, y: real, color: string, d: SparkDraw): Particle
  {
    var speed := d.speed * 4.0 + 2.0;
    Particle(id, x, y, d.cos * speed, d.sin * speed, EXPLOSION_LIFE, EXPLOSION_LIFE, d.size * 4.0 + 2.0, color)
  }

  /** The sparks of one explosion, numbered consecutively from firstId: all
      at (x, y), in the explosion's colour, with a full life of
      EXPLOSION_LIFE frames. */
  function Burst(firstId: int, x: real, y: real, color: string, draws: seq<SparkDraw>): (r: seq<Particle>)
    ensures |r| == |draws|
    ensures forall k :: 0 <= k < |r| ==>
      r[k].id == firstId + k && r[k].x == x && r[k].y == y && r[k].color == color
      && r[k].life == r[k].maxLife == EXPLOSION_LIFE
  {
    seq(|draws|, k requires 0 <= k < |draws| => Spark(firstId + k, x, y, color, draws[k]))
  }

  /** One trail particle near (x, y): within 2 pixels on each axis, drifting
      at a tenth of the given velocity plus a jitter below 0.25 either way,
      living TRAIL_LIFE frames. */
  function TrailParticle(id: int, x: real, y: real, vx: real, vy: real, d: TrailDraw): (p: Particle)
    requires ValidTrailDraw(d)
    ensures p.id == id && p.life == p.maxLife == TRAIL_LIFE && p.color == TRAIL_COLOR
    ensures x - 2.0 <= p.x < x + 2.0 && y - 2.0 <= p.y < y + 2.0
    ensures vx * 0.1 - 0.25 <= p.vx < vx * 0.1 + 0.25 && vy * 0.1 - 0.25 <= p.vy < vy * 0.1 + 0.25
    ensures 1.0 <= p.size < 3.0
  {
    Particle(id, x + (d.dx - 0.5) * 4.0, y + (d.dy - 0.5) * 4.0,
             vx * 0.1 + (d.dvx - 0.5) * 0.5, vy * 0.1 + (d.dvy - 0.5) * 0.5,
             TRAIL_LIFE, TRAIL_LIFE, d.size * 2.0 + 1.0, TRAIL_COLOR)
  }

  /** One frame of a particle: moved by its velocity, one frame older, then
      slowed by DRAG. */
  function Age(p: Particle): Particle
  {
    p.(x := p.x + p.vx, y := p.y + p.vy, life := p.life - 1, vx := p.vx * DRAG, vy := p.vy * DRAG)
  }

  predicate Alive(p: Particle) { p.life > 0 }

  function ParticleId(p: Particle): int { p.id }

  /** `updateParticles`: every particle aged, the expired ones dropped. */
  function Aged(ps: seq<Particle>): seq<Particle>
  {
    MapFilter(ps, Age, Alive)
  }

  /** A particle survives a frame exactly when it had more than one frame of
      life left; the survivors are the aged particles, and nothing is added. */
  lemma AgedMember(ps: seq<Particle>, p: Particle)
    ensures p in Aged(ps) <==> exists k :: 0 <= k < |ps| && ps[k].life > 1 && p == Age(ps[k])
    ensures |Aged(ps)| <= |ps|
  {
    MapFilterMember(ps, Age, Alive, p);
  }

  /** The particles of the pool: each with 0 < life <= maxLife and an id
      already drawn from the counter, in creation order. */
  predicate PoolWellFormed(ps: seq<Particle>, nextId: int)
  {
    (forall k :: 0 <= k < |ps| ==> 0 < ps[k].life <= ps[k].maxLife && 0 <= ps[k].id < nextId)
    && Increasing(ps, ParticleId)
  }

  lemma AgedWellFormed(ps: seq<Particle>, nextId: int)
    requires PoolWellFormed(ps, nextId)
    ensures PoolWellFormed(Aged(ps), nextId)
  {
    var r := Aged(ps);
    MapFilterIncreasing(ps, Age, Alive, ParticleId);
    forall k | 0 <= k < |r|
      ensures 0 < r[k].life <= r[k].maxLife && 0 <= r[k].id < nextId
    {
      MapFilterMember(ps, Age, Alive, r[k]);
    }
  }

  /** Appending particles numbered from the counter's value keeps the pool
      well formed, with the counter moved past them. */
  lemma AppendFresh(ps: seq<Particle>, nextId: int, added: seq<Particle>)
    requires PoolWellFormed(ps, nextId) && nextId >= 0
    requires forall k :: 0 <= k < |added| ==>
      added[k].id == nextId + k && 0 < added[k].life <= added[k].maxLife
    ensures PoolWellFormed(ps + added, nextId + |added|)
  {
    var r := ps + added;
    forall a, b | 0 <= a < b < |r|
      ensures ParticleId(r[a]) < ParticleId(r[b])
    {
      if b < |ps| {
        assert r[a] == ps[a] && r[b] == ps[b];
      } else if a < |ps| {
        assert r[a] == ps[a] && r[b] == added[b - |ps|];
      } else {
        assert r[a] == added[a - |ps|] && r[b] == added[b - |ps|];
      }
    }
  }

  class ParticleSystem {
    /** The live particles, oldest first. */
    var particles: seq<Particle>
    /** `particleIdRef`: the id the next particle receives. */
    var nextId: int

    ghost predicate Valid()
      reads this
    {
      nextId >= 0 && PoolWellFormed(particles, nextId)
    }

    constructor()
      ensures Valid() && particles == [] && nextId == 0
    {
      particles := [];
      nextId := 0;
    }

    /** `createExplosion`: `count` sparks (none for a count below one) at
        (x, y), numbered from the counter, appended after the live
        particles. One draw is consumed per spark. */
    method CreateExplosion(x: real, y: real, draws: seq<SparkDraw>,
                           color: string := DEFAULT_EXPLOSION_COLOR, count: int := DEFAULT_EXPLOSION_COUNT)
      requires Valid() && count <= |draws|
      modifies this
      ensures Valid()
      ensures var n := if count > 0 then count else 0;
        particles == old(particles) + Burst(old(nextId), x, y, color, draws[..n])
        && nextId == old(nextId) + n
    {
      var newParticles: seq<Particle> := [];
      var i := 0;
      while i < count
        invariant 0 <= i <= (if count > 0 then count else 0)
        invariant nextId == old(nextId) + i
        invariant newParticles == Burst(old(nextId), x, y, color, draws[..i])
        invariant particles == old(particles)
      {
        assert draws[..i + 1] == draws[..i] + [draws[i]];
        newParticles := newParticles + [Spark(nextId, x, y, color, draws[i])];
        nextId := nextId + 1;
        i := i + 1;
      }
      AppendFresh(particles, old(nextId), newParticles);
      particles := particles + newParticles;
    }

    /** `createTrail`: one trail particle near (x, y), numbered from the
        counter, appended after the live particles. */
    method CreateTrail(x: real, y: real, vx: real, vy: real, d: TrailDraw)
      requires Valid() && ValidTrailDraw(d)
      modifies this
      ensures Valid()
      ensures particles == old(particles) + [TrailParticle(old(nextId), x, y, vx, vy, d)]
      ensures nextId == old(nextId) + 1
    {
      var p := TrailParticle(nextId, x, y, vx, vy, d);
      AppendFresh(particles, nextId, [p]);
      particles := particles + [p];
      nextId := nextId + 1;
    }

    /** `updateParticles`: one frame for every particle. */
    method UpdateParticles()
      requires Valid()
      modifies this
      ensures Valid()
      ensures particles == Aged(old(particles)) && nextId == old(nextId)
    {
      AgedWellFormed(particles, nextId);
      particles := Aged(particles);
    }
  }
}
