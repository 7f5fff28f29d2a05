/** The asteroid shooter's entities and the pure per-frame rules applied to
    them: the playfield wrap, bullet ageing, asteroid drift, spawn pacing and
    the construction of a new asteroid from its random draws. */
module AsteroidEntities {
  import opened Geometry
  import opened Lists
  import opened AsteroidConstants

  datatype Spaceship = Spaceship(position: Vec, rotation: real, velocity: Vec, isThrusting: bool)

  datatype Bullet = Bullet(id: int, position: Vec, velocity: Vec, lifespan: int)

  datatype Asteroid = Asteroid(
    id: int, position: Vec, velocity: Vec, size: Size, rotation: real,
    rotationSpeed: real, kind: Kind, health: int, maxHealth: int)

  /** The keys held down, sampled once per frame. */
  datatype Controls = Controls(left: bool, right: bool, thrust: bool, reverse: bool, shoot: bool)

  /** The ship at rest in the centre of the playfield. */
  function InitialSpaceship(): Spaceship
  {
    Spaceship(Vec(CANVAS_WIDTH / 2.0, CANVAS_HEIGHT / 2.0), 0.0, Vec(0.0, 0.0), false)
  }

  predicate InCanvas(p: Vec)
  {
    0.0 <= p.x < CANVAS_WIDTH && 0.0 <= p.y < CANVAS_HEIGHT
  }

  /** `wrapPosition`: both axes brought back onto the playfield with the
      `((v % W) + W) % W` idiom, which leaves on-screen points alone. */
  function WrapPosition(p: Vec): (r: Vec)
    ensures InCanvas(r)
    ensures 0.0 <= p.x < CANVAS_WIDTH ==> r.x == p.x
    ensures 0.0 <= p.y < CANVAS_HEIGHT ==> r.y == p.y
  {
    Vec(WrapCoord(p.x, CANVAS_WIDTH), WrapCoord(p.y, CANVAS_HEIGHT))
  }

  /** The wrap is the floored modulo on each axis: a point leaving one edge
      re-enters at the opposite edge. */
  lemma WrapPositionIsFloorMod(p: Vec)
    ensures WrapPosition(p) == Vec(FloorMod(p.x, CANVAS_WIDTH), FloorMod(p.y, CANVAS_HEIGHT))
  {
    WrapIsFloorMod(p.x, CANVAS_WIDTH);
    WrapIsFloorMod(p.y, CANVAS_HEIGHT);
  }

  /** One frame of a bullet: moved by its velocity, wrapped, one frame older. */
  function MoveBullet(b: Bullet): Bullet
  {
    b.(position := WrapPosition(Add(b.position, b.velocity)), lifespan := b.lifespan - 1)
  }

  predicate BulletAlive(b: Bullet)
  {
    b.lifespan > 0
  }

  function BulletId(b: Bullet): int { b.id }

  /** `updateBullets`: every bullet moved and aged, the expired ones dropped. */
  function AdvanceBullets(bs: seq<Bullet>): seq<Bullet>
  {
    MapFilter(bs, MoveBullet, BulletAlive)
  }

  /** `updateBullets` works bullet by bullet and keeps their order: the
      bullets of a list split in two advance as the two halves do. */
  lemma AdvanceBulletsAppend(a: seq<Bullet>, b: seq<Bullet>)
    ensures AdvanceBullets(a + b) == AdvanceBullets(a) + AdvanceBullets(b)
  {
    MapFilterAppend(a, b, MoveBullet, BulletAlive);
  }

  /** A bullet survives a frame exactly when it had more than one frame left;
      the survivors are the moved bullets, one frame older, and nothing is
      added. */
  lemma AdvanceBulletsMember(bs: seq<Bullet>, b: Bullet)
    ensures b in AdvanceBullets(bs) <==>
      exists k :: 0 <= k < |bs| && bs[k].lifespan > 1 && b == MoveBullet(bs[k])
    ensures |AdvanceBullets(bs)| <= |bs|
  {
    MapFilterMember(bs, MoveBullet, BulletAlive, b);
  }

  /** The bullets of a running game: at most MAX_BULLETS, each with a
      remaining lifespan within BULLET_LIFESPAN and an id already drawn from
      the counter, in firing order. */
  predicate BulletsWellFormed(bs: seq<Bullet>, nextId: int)
  {
    |bs| <= MAX_BULLETS
    && (forall k :: 0 <= k < |bs| ==> 0 < bs[k].lifespan <= BULLET_LIFESPAN && 0 <= bs[k].id < nextId)
    && Increasing(bs, BulletId)
  }

  lemma AdvanceBulletsWellFormed(bs: seq<Bullet>, nextId: int)
    requires BulletsWellFormed(bs, nextId)
    ensures BulletsWellFormed(AdvanceBullets(bs), nextId)
  {
    var r := AdvanceBullets(bs);
    MapFilterIncreasing(bs, MoveBullet, BulletAlive, BulletId);
    forall k | 0 <= k < |r|
      ensures 0 < r[k].lifespan <= BULLET_LIFESPAN && 0 <= r[k].id < nextId
    {
      MapFilterMember(bs, MoveBullet, BulletAlive, r[k]);
    }
  }

  /** One frame of an asteroid: moved by its velocity, wrapped, spun. */
  function DriftAsteroid(a: Asteroid): Asteroid
  {
    a.(position := WrapPosition(Add(a.position, a.velocity)), rotation := a.rotation + a.rotationSpeed)
  }

  /** The map part of `updateAsteroids`: no asteroid is added, removed or
      damaged, and every one ends on the playfield. */
  function DriftAsteroids(asteroids: seq<Asteroid>): (r: seq<Asteroid>)
    ensures |r| == |asteroids|
    ensures forall k :: 0 <= k < |r| ==>
      InCanvas(r[k].position) && r[k].id == asteroids[k].id && r[k].size == asteroids[k].size
      && r[k].kind == asteroids[k].kind && r[k].health == asteroids[k].health
      && r[k].maxHealth == asteroids[k].maxHealth && r[k].velocity == asteroids[k].velocity
  {
    seq(|asteroids|, k requires 0 <= k < |asteroids| => DriftAsteroid(asteroids[k]))
  }

  function AsteroidId(a: Asteroid): int { a.id }

  lemma DriftAsteroidsWellFormed(asteroids: seq<Asteroid>, nextId: int)
    requires AsteroidsWellFormed(asteroids, nextId)
    ensures AsteroidsWellFormed(DriftAsteroids(asteroids), nextId)
  {
    var r := DriftAsteroids(asteroids);
    assert forall k :: 0 <= k < |r| ==> AsteroidId(r[k]) == AsteroidId(asteroids[k]);
  }

  /** The asteroids of a game: health between 1 and the kind's maximum, ids
      already drawn from the counter, in spawn order. */
  predicate AsteroidsWellFormed(asteroids: seq<Asteroid>, nextId: int)
  {
    (forall k :: 0 <= k < |asteroids| ==>
      1 <= asteroids[k].health <= asteroids[k].maxHealth && 0 <= asteroids[k].id < nextId)
    && Increasing(asteroids, AsteroidId)
  }

  /** A new bullet numbered from the counter may join the list while it has
      room: the list stays well formed, with the counter moved past it. */
  lemma AppendBulletWellFormed(bs: seq<Bullet>, b: Bullet, nextId: int)
    requires BulletsWellFormed(bs, nextId) && nextId >= 0 && |bs| < MAX_BULLETS
    requires b.id == nextId && 0 < b.lifespan <= BULLET_LIFESPAN
    ensures BulletsWellFormed(bs + [b], nextId + 1)
  {
    AppendIncreasing(bs, b, BulletId);
  }

  /** A new asteroid numbered from the counter keeps the list well formed,
      with the counter moved past it. */
  lemma AppendAsteroidWellFormed(asteroids: seq<Asteroid>, a: Asteroid, nextId: int)
    requires AsteroidsWellFormed(asteroids, nextId) && nextId >= 0
    requires a.id == nextId && 1 <= a.health <= a.maxHealth
    ensures AsteroidsWellFormed(asteroids + [a], nextId + 1)
  {
    AppendIncreasing(asteroids, a, AsteroidId);
  }

  /** `spawnAsteroid`'s pacing: the number of frames between spawns, shrinking
      by 2 per second of play and 10 per level, never below 20. */
  function SpawnRate(elapsed: real, level: int): (r: real)
    ensures r >= MIN_SPAWN_RATE
    ensures elapsed >= 0.0 && level >= 0 ==> r <= BASE_SPAWN_RATE
  {
    MaxReal(MIN_SPAWN_RATE, BASE_SPAWN_RATE - elapsed * 2.0 - (level * 10) as real)
  }

  /** Spawning only speeds up: later and at a higher level, the interval is
      no longer. */
  lemma SpawnRateMonotone(e1: real, l1: int, e2: real, l2: int)
    requires e1 <= e2 && l1 <= l2
    ensures SpawnRate(e2, l2) <= SpawnRate(e1, l1)
  {
  }

  /** The asteroid cap of a level: BASE_ASTEROIDS plus ASTEROIDS_PER_LEVEL per
      level above the first, never more than MAX_ASTEROIDS. */
  function MaxAsteroidsForLevel(level: int): (n: int)
    ensures n <= MAX_ASTEROIDS
    ensures level >= 1 ==> n >= BASE_ASTEROIDS
  {
    Min(MAX_ASTEROIDS, BASE_ASTEROIDS + (level - 1) * ASTEROIDS_PER_LEVEL)
  }

  lemma MaxAsteroidsMonotone(l1: int, l2: int)
    requires l1 <= l2
    ensures MaxAsteroidsForLevel(l1) <= MaxAsteroidsForLevel(l2)
  {
  }

  /** The `Math.random()` values one new asteroid consumes, and the unit
      heading `(cos angle, sin angle)` of its random angle. */
  datatype AsteroidDraws = AsteroidDraws(
    edge: real, along: real, size: real, kind: real, heading: Vec, speed: real, spin: real)

  predicate ValidDraws(d: AsteroidDraws)
  {
    Unit(d.edge) && Unit(d.along) && Unit(d.size) && Unit(d.kind) && Unit(d.speed) && Unit(d.spin)
  }

  /** The entry point of `createRandomAsteroid`: `floor(edge * 4)` picks the
      top, right, bottom or left edge, and the asteroid starts WRAP_MARGIN
      beyond it, off the playfield. */
  function SpawnPoint(edge: real, along: real): (p: Vec)
    requires Unit(along)
    ensures !InCanvas(p)
    ensures p.y == -WRAP_MARGIN || p.x == CANVAS_WIDTH + WRAP_MARGIN
         || p.y == CANVAS_HEIGHT + WRAP_MARGIN || p.x == -WRAP_MARGIN
  {
    var side := (edge * 4.0).Floor;
    if side == 0 then Vec(along * CANVAS_WIDTH, -WRAP_MARGIN)
    else if side == 1 then Vec(CANVAS_WIDTH + WRAP_MARGIN, along * CANVAS_HEIGHT)
    else if side == 2 then Vec(along * CANVAS_WIDTH, CANVAS_HEIGHT + WRAP_MARGIN)
    else Vec(-WRAP_MARGIN, along * CANVAS_HEIGHT)
  }

  /** Half the asteroids are large, three in ten medium, the rest small. */
  function SizeFor(r: real): Size
  {
    if r < 0.5 then Large else if r < 0.8 then Medium else Small
  }

  /** `['normal', 'fast', 'armored', 'explosive'][floor(r * 4)]`. */
  function KindFor(r: real): (k: Kind)
    requires Unit(r)
    ensures k == Normal <==> r < 0.25
    ensures k == Fast <==> 0.25 <= r < 0.5
    ensures k == Armored <==> 0.5 <= r < 0.75
    ensures k == Explosive <==> r >= 0.75
  {
    var i := (r * 4.0).Floor;
    if i == 0 then Normal else if i == 1 then Fast else if i == 2 then Armored else Explosive
  }

  /** The level factor of an asteroid's speed. */
  function LevelSpeedMultiplier(level: int, speedPerLevel: real): real
  {
    1.0 + (level - 1) as real * speedPerLevel
  }

  /** The play-time factor of an asteroid's speed: 5% more per second. */
  function TimeSpeedMultiplier(elapsed: real): real
  {
    1.0 + elapsed * 0.05
  }

  /** The speed of a new asteroid: a draw between the size's bounds, scaled by
      play time, the kind and the level; at least the size's minimum times
      the kind's factor once the game has started and the level is one or
      more. */
  function AsteroidSpeed(size: Size, kind: Kind, draw: real, level: int, speedPerLevel: real, elapsed: real): (v: real)
    requires Unit(draw)
    ensures level >= 1 && speedPerLevel >= 0.0 && elapsed >= 0.0 ==> v >= MinSpeed(size) * KindSpeed(kind)
  {
    var base := draw * (MaxSpeed(size) - MinSpeed(size)) + MinSpeed(size);
    var growth := TimeSpeedMultiplier(elapsed) * LevelSpeedMultiplier(level, speedPerLevel);
    if level >= 1 && speedPerLevel >= 0.0 && elapsed >= 0.0 then
      GrowthAtLeastOne(elapsed, level, speedPerLevel);
      ScaledAtLeast(base * KindSpeed(kind), growth, MinSpeed(size) * KindSpeed(kind));
      base * TimeSpeedMultiplier(elapsed) * KindSpeed(kind) * LevelSpeedMultiplier(level, speedPerLevel)
    else
      base * TimeSpeedMultiplier(elapsed) * KindSpeed(kind) * LevelSpeedMultiplier(level, speedPerLevel)
  }

  lemma GrowthAtLeastOne(elapsed: real, level: int, speedPerLevel: real)
    requires level >= 1 && speedPerLevel >= 0.0 && elapsed >= 0.0
    ensures TimeSpeedMultiplier(elapsed) * LevelSpeedMultiplier(level, speedPerLevel) >= 1.0
  {
    var t := TimeSpeedMultiplier(elapsed);
    var l := LevelSpeedMultiplier(level, speedPerLevel);
    MulNonNegative((level - 1) as real, speedPerLevel);
    MulNonNegative(t - 1.0, l - 1.0);
    assert (t - 1.0) * (l - 1.0) == t * l - t - l + 1.0;
  }

  lemma ScaledAtLeast(x: real, g: real, lo: real)
    requires g >= 1.0 && x >= lo >= 0.0
    ensures x * g >= lo
  {
    MulNonNegative(x, g - 1.0);
  }

  /** `createAsteroid`: a new asteroid at `position` with the given id, its
      kind drawn at random, full health for its kind, at rest rotation and
      with a spin below 0.05 radians per frame either way. */
  function NewAsteroid(id: int, position: Vec, size: Size, d: AsteroidDraws, level: int, speedPerLevel: real, elapsed: real): (a: Asteroid)
    requires ValidDraws(d)
    ensures a.id == id && a.position == position && a.size == size && a.kind == KindFor(d.kind)
    ensures 1 <= a.health == a.maxHealth == KindHealth(a.kind)
    ensures a.rotation == 0.0 && -0.05 <= a.rotationSpeed < 0.05
  {
    var kind := KindFor(d.kind);
    var speed := AsteroidSpeed(size, kind, d.speed, level, speedPerLevel, elapsed);
    Asteroid(id, position, Scale(d.heading, speed), size, 0.0, (d.spin - 0.5) * 0.1,
             kind, KindHealth(kind), KindHealth(kind))
  }

  /** `createRandomAsteroid`: a new asteroid entering from a random edge. */
  function RandomAsteroid(id: int, d: AsteroidDraws, level: int, speedPerLevel: real, elapsed: real): (a: Asteroid)
    requires ValidDraws(d)
    ensures a.id == id && !InCanvas(a.position) && a.size == SizeFor(d.size)
    ensures 1 <= a.health == a.maxHealth
  {
    NewAsteroid(id, SpawnPoint(d.edge, d.along), SizeFor(d.size), d, level, speedPerLevel, elapsed)
  }
}
