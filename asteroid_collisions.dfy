/** The collision pass of the asteroid shooter (`checkCollisions`): bullets
    against asteroids, scanned from the last bullet and the last asteroid
    downward, each bullet stopping at its first hit; then the ship against
    the surviving asteroids. The pass is specified by the recursive
    functions below and carried out by the loop methods, which are proved to
    compute them. */
module AsteroidCollisions {
  import opened Geometry
  import opened Lists
  import opened AsteroidConstants
  import opened AsteroidEntities

  /** A bullet is inside an asteroid's drawn circle. */
  predicate BulletHits(b: Bullet, a: Asteroid)
  {
    Within(b.position, a.position, Diameter(a.size) / 2.0)
  }

  /** A point lies within EXPLOSION_RADIUS of a blast centre. */
  predicate InBlast(p: Vec, centre: Vec)
  {
    Within(p, centre, EXPLOSION_RADIUS)
  }

  /** The ship's circle overlaps an asteroid's circle. */
  predicate Touches(ship: Vec, a: Asteroid)
  {
    Within(ship, a.position, Diameter(a.size) / 2.0 + SPACESHIP_SIZE / 2.0)
  }

  /** Points for destroying an asteroid: `POINTS[size] * ASTEROID_TYPES[kind].points`. */
  function Reward(a: Asteroid): (p: int)
    ensures p >= SizePoints(a.size) >= 20
  {
    SizePoints(a.size) * KindPoints(a.kind)
  }

  /** The blast of an explosive asteroid on one other asteroid. */
  function Scorch(a: Asteroid, centre: Vec): Asteroid
  {
    if InBlast(a.position, centre) then a.(health := Max(1, a.health - 1)) else a
  }

  /** The blast of an explosive asteroid centred at `centre` on the remaining
      asteroids: those within range lose one health but never their last,
      the others are untouched, and nothing else about any asteroid changes. */
  function Blast(asteroids: seq<Asteroid>, centre: Vec): (r: seq<Asteroid>)
    ensures |r| == |asteroids|
    ensures forall k :: 0 <= k < |r| ==> r[k] == asteroids[k].(health := r[k].health)
    ensures forall k :: 0 <= k < |r| && asteroids[k].health >= 1 ==>
      1 <= r[k].health <= asteroids[k].health
      && (InBlast(asteroids[k].position, centre) && asteroids[k].health > 1 ==> r[k].health == asteroids[k].health - 1)
      && (!InBlast(asteroids[k].position, centre) ==> r[k].health == asteroids[k].health)
  {
    seq(|asteroids|, k requires 0 <= k < |asteroids| => Scorch(asteroids[k], centre))
  }

  /** The working state of the pass: the bullet and asteroid lists being
      spliced, the running score and whether the ship has been hit. */
  datatype Pass = Pass(bullets: seq<Bullet>, asteroids: seq<Asteroid>, score: int, shipHit: bool)

  /** The asteroid a bullet hits when the asteroids below index n are scanned
      downward: the highest such index whose asteroid it is inside, or -1. */
  function HitIndex(b: Bullet, asteroids: seq<Asteroid>, n: nat): (j: int)
    requires n <= |asteroids|
    ensures -1 <= j < n
    ensures j >= 0 ==> BulletHits(b, asteroids[j])
    ensures forall k :: j < k < n ==> !BulletHits(b, asteroids[k])
  {
    if n == 0 then -1
    else if BulletHits(b, asteroids[n - 1]) then n - 1
    else HitIndex(b, asteroids, n - 1)
  }

  /** The hit asteroid at index j loses one health. At zero it is removed and
      scores its reward, and if it was explosive its blast may hit the ship
      (when the ship is exposed) and scorches the asteroids left. */
  function ResolveHit(p: Pass, j: nat, ship: Vec, exposed: bool): Pass
    requires j < |p.asteroids|
  {
    var a := p.asteroids[j];
    var newHealth := a.health - 1;
    if newHealth <= 0 then
      var rest := RemoveAt(p.asteroids, j);
      var score := p.score + Reward(a);
      if a.kind == Explosive then
        Pass(p.bullets, Blast(rest, a.position), score, p.shipHit || (exposed && InBlast(ship, a.position)))
      else
        Pass(p.bullets, rest, score, p.shipHit)
    else
      Pass(p.bullets, p.asteroids[j := a.(health := newHealth)], p.score, p.shipHit)
  }

  /** The outer loop's body for bullet i: if it hits an asteroid it is removed
      and the hit is resolved; otherwise nothing changes. Either way the
      score does not fall, nothing is added, and a hit ship stays hit. */
  function BulletStep(p: Pass, i: nat, ship: Vec, exposed: bool): (r: Pass)
    requires i < |p.bullets|
    ensures r.score >= p.score && (p.shipHit ==> r.shipHit)
    ensures |p.bullets| - 1 <= |r.bullets| <= |p.bullets|
    ensures |r.asteroids| <= |p.asteroids|
  {
    var j := HitIndex(p.bullets[i], p.asteroids, |p.asteroids|);
    if j < 0 then p
    else ResolveHit(p.(bullets := RemoveAt(p.bullets, i)), j, ship, exposed)
  }

  /** The bullets below index n processed from n - 1 down to 0. The score
      never decreases and no bullet or asteroid is added. */
  function Sweep(p: Pass, n: nat, ship: Vec, exposed: bool): (r: Pass)
    requires n <= |p.bullets|
    ensures r.score >= p.score && (p.shipHit ==> r.shipHit)
    ensures |r.bullets| <= |p.bullets| && |r.asteroids| <= |p.asteroids|
    decreases n
  {
    if n == 0 then p
    else Sweep(BulletStep(p, n - 1, ship, exposed), n - 1, ship, exposed)
  }

  /** The bullet-asteroid half of `checkCollisions` on the current lists. */
  function BulletPass(bullets: seq<Bullet>, asteroids: seq<Asteroid>, score: int, ship: Vec, exposed: bool): Pass
  {
    Sweep(Pass(bullets, asteroids, score, false), |bullets|, ship, exposed)
  }

  /** The ship touches some asteroid. */
  predicate ShipStruck(ship: Vec, asteroids: seq<Asteroid>)
  {
    exists k :: 0 <= k < |asteroids| && Touches(ship, asteroids[k])
  }

  /** The nested backward loops of `checkCollisions`, splicing the bullet and
      asteroid lists in place; the inner loop is `BulletAgainstAsteroids`. */
  method RunBulletPass(bullets: seq<Bullet>, asteroids: seq<Asteroid>, score: int, ship: Vec, exposed: bool)
    returns (p: Pass)
    ensures p == BulletPass(bullets, asteroids, score, ship, exposed)
  {
    p := Pass(bullets, asteroids, score, false);
    var i := |p.bullets| - 1;
    while i >= 0
      invariant -1 <= i < |p.bullets|
      invariant Sweep(p, i + 1, ship, exposed) == BulletPass(bullets, asteroids, score, ship, exposed)
      decreases i
    {
      p := BulletAgainstAsteroids(p, i, ship, exposed);
      i := i - 1;
    }
  }

  /** The inner loop of `checkCollisions` for bullet i: the asteroids are
      scanned from the last one down; at the first one the bullet is inside,
      the hit is applied and the scan breaks. */
  method BulletAgainstAsteroids(p: Pass, i: nat, ship: Vec, exposed: bool) returns (r: Pass)
    requires i < |p.bullets|
    ensures r == BulletStep(p, i, ship, exposed)
  {
    r := p;
    var bullet := p.bullets[i];
    var j := |p.asteroids| - 1;
    while j >= 0
      invariant -1 <= j < |p.asteroids|
      invariant r == p
      invariant HitIndex(bullet, p.asteroids, j + 1) == HitIndex(bullet, p.asteroids, |p.asteroids|)
      decreases j
    {
      if BulletHits(bullet, p.asteroids[j]) {
        r := ApplyHit(p, i, j, ship, exposed);
        break;
      }
      j := j - 1;
    }
  }

  /** The body of a hit: the bullet is spliced out, the asteroid loses one
      health and is either spliced out, scored and (if explosive) detonated,
      or stored back with its lower health. */
  method ApplyHit(p: Pass, i: nat, j: nat, ship: Vec, exposed: bool) returns (r: Pass)
    requires i < |p.bullets| && j < |p.asteroids|
    ensures r == ResolveHit(p.(bullets := RemoveAt(p.bullets, i)), j, ship, exposed)
  {
    var newBullets, newAsteroids, newScore, shipHit := p.bullets, p.asteroids, p.score, p.shipHit;
    var asteroid := newAsteroids[j];
    newBullets := RemoveAt(newBullets, i);
    var newHealth := asteroid.health - 1;
    if newHealth <= 0 {
      newAsteroids := RemoveAt(newAsteroids, j);
      newScore := newScore + Reward(asteroid);
      if asteroid.kind == Explosive {
        if exposed && InBlast(ship, asteroid.position) {
          shipHit := true;
        }
        newAsteroids := Blast(newAsteroids, asteroid.position);
      }
    } else {
      newAsteroids := newAsteroids[j := asteroid.(health := newHealth)];
    }
    r := Pass(newBullets, newAsteroids, newScore, shipHit);
  }

  /** The direct-contact loop of `checkCollisions`: the first asteroid whose
      circle the ship's overlaps ends the search. */
  method ShipContact(ship: Vec, asteroids: seq<Asteroid>) returns (hit: bool)
    ensures hit <==> ShipStruck(ship, asteroids)
  {
    hit := false;
    var k := 0;
    while k < |asteroids|
      invariant 0 <= k <= |asteroids|
      invariant forall m :: 0 <= m < k ==> !Touches(ship, asteroids[m])
    {
      if Touches(ship, asteroids[k]) {
        hit := true;
        break;
      }
      k := k + 1;
    }
  }

  /** One bullet step, when the bullet hits asteroid j: the bullet is gone;
      a hit that leaves health scores nothing and costs exactly one health; a
      destroying hit scores the asteroid's reward and removes one asteroid.
      A bullet that hits nothing changes nothing. */
  lemma HitEffect(p: Pass, i: nat, ship: Vec, exposed: bool)
    requires i < |p.bullets|
    ensures var j := HitIndex(p.bullets[i], p.asteroids, |p.asteroids|);
      var r := BulletStep(p, i, ship, exposed);
      (j < 0 ==> r == p)
      && (j >= 0 ==>
        r.bullets == RemoveAt(p.bullets, i)
        && (p.asteroids[j].health > 1 ==>
              r.score == p.score && r.shipHit == p.shipHit
              && r.asteroids == p.asteroids[j := p.asteroids[j].(health := p.asteroids[j].health - 1)])
        && (p.asteroids[j].health <= 1 ==>
              r.score == p.score + Reward(p.asteroids[j])
              && |r.asteroids| == |p.asteroids| - 1))
  {
  }

  /** On a well-formed list, a destroyed asteroid leaves no asteroid with its
      id behind, blast or no blast. */
  lemma DestroyedIsGone(p: Pass, i: nat, ship: Vec, exposed: bool, nextId: int)
    requires i < |p.bullets| && AsteroidsWellFormed(p.asteroids, nextId)
    requires HitIndex(p.bullets[i], p.asteroids, |p.asteroids|) >= 0
    ensures var j := HitIndex(p.bullets[i], p.asteroids, |p.asteroids|);
      p.asteroids[j].health <= 1 ==>
      forall a :: a in BulletStep(p, i, ship, exposed).asteroids ==> a.id != p.asteroids[j].id
  {
    var j := HitIndex(p.bullets[i], p.asteroids, |p.asteroids|);
    if p.asteroids[j].health <= 1 {
      var gone := p.asteroids[j];
      var rest := RemoveAt(p.asteroids, j);
      assert forall k :: 0 <= k < |rest| ==> rest[k].id != gone.id by {
        forall k | 0 <= k < |rest|
          ensures rest[k].id != gone.id
        {
          if k < j {
            assert rest[k] == p.asteroids[k];
          } else {
            assert rest[k] == p.asteroids[k + 1];
          }
        }
      }
      var r := BulletStep(p, i, ship, exposed);
      forall a | a in r.asteroids
        ensures a.id != gone.id
      {
        var k :| 0 <= k < |r.asteroids| && r.asteroids[k] == a;
        assert a.id == rest[k].id;
      }
    }
  }

  /** Resolving a hit keeps the asteroid list well formed. */
  lemma ResolveHitWellFormed(p: Pass, j: nat, ship: Vec, exposed: bool, asteroidIds: int)
    requires j < |p.asteroids| && AsteroidsWellFormed(p.asteroids, asteroidIds)
    ensures AsteroidsWellFormed(ResolveHit(p, j, ship, exposed).asteroids, asteroidIds)
  {
    var a := p.asteroids[j];
    if a.health - 1 <= 0 {
      var rest := RemoveAt(p.asteroids, j);
      RemoveAtWellFormed(p.asteroids, j, asteroidIds);
      if a.kind == Explosive {
        BlastWellFormed(rest, a.position, asteroidIds);
        assert ResolveHit(p, j, ship, exposed).asteroids == Blast(rest, a.position);
      } else {
        assert ResolveHit(p, j, ship, exposed).asteroids == rest;
      }
    } else {
      var s := p.asteroids[j := a.(health := a.health - 1)];
      assert ResolveHit(p, j, ship, exposed).asteroids == s;
      assert forall k :: 0 <= k < |s| ==> AsteroidId(s[k]) == AsteroidId(p.asteroids[k]);
    }
  }

  lemma RemoveAtWellFormed(asteroids: seq<Asteroid>, j: nat, asteroidIds: int)
    requires j < |asteroids| && AsteroidsWellFormed(asteroids, asteroidIds)
    ensures AsteroidsWellFormed(RemoveAt(asteroids, j), asteroidIds)
  {
    RemoveAtIncreasing(asteroids, j, AsteroidId);
  }

  lemma BlastWellFormed(asteroids: seq<Asteroid>, centre: Vec, asteroidIds: int)
    requires AsteroidsWellFormed(asteroids, asteroidIds)
    ensures AsteroidsWellFormed(Blast(asteroids, centre), asteroidIds)
  {
    var b := Blast(asteroids, centre);
    assert forall k :: 0 <= k < |b| ==> AsteroidId(b[k]) == AsteroidId(asteroids[k]);
  }

  /** A bullet step keeps the lists well formed: the remaining bullets keep
      their ids, lifespans and order, and every asteroid keeps its id and a
      health between 1 and its maximum. */
  lemma BulletStepWellFormed(p: Pass, i: nat, ship: Vec, exposed: bool, bulletIds: int, asteroidIds: int)
    requires i < |p.bullets|
    requires BulletsWellFormed(p.bullets, bulletIds) && AsteroidsWellFormed(p.asteroids, asteroidIds)
    ensures BulletsWellFormed(BulletStep(p, i, ship, exposed).bullets, bulletIds)
    ensures AsteroidsWellFormed(BulletStep(p, i, ship, exposed).asteroids, asteroidIds)
  {
    var j := HitIndex(p.bullets[i], p.asteroids, |p.asteroids|);
    if j >= 0 {
      RemoveAtIncreasing(p.bullets, i, BulletId);
      ResolveHitWellFormed(p.(bullets := RemoveAt(p.bullets, i)), j, ship, exposed, asteroidIds);
    }
  }

  /** The whole bullet sweep keeps the lists well formed. */
  lemma {:induction false} SweepWellFormed(p: Pass, n: nat, ship: Vec, exposed: bool, bulletIds: int, asteroidIds: int)
    requires n <= |p.bullets|
    requires BulletsWellFormed(p.bullets, bulletIds) && AsteroidsWellFormed(p.asteroids, asteroidIds)
    ensures BulletsWellFormed(Sweep(p, n, ship, exposed).bullets, bulletIds)
    ensures AsteroidsWellFormed(Sweep(p, n, ship, exposed).asteroids, asteroidIds)
    decreases n
  {
    if n > 0 {
      var q := BulletStep(p, n - 1, ship, exposed);
      BulletStepWellFormed(p, n - 1, ship, exposed, bulletIds, asteroidIds);
      SweepWellFormed(q, n - 1, ship, exposed, bulletIds, asteroidIds);
      assert Sweep(p, n, ship, exposed) == Sweep(q, n - 1, ship, exposed);
    }
  }

  /** The blast can only hit a ship that is exposed: if the ship is not, the
      sweep never reports a hit. */
  lemma {:induction false} SweepShipSafe(p: Pass, n: nat, ship: Vec)
    requires n <= |p.bullets| && !p.shipHit
    ensures !Sweep(p, n, ship, false).shipHit
    decreases n
  {
    if n > 0 {
      SweepShipSafe(BulletStep(p, n - 1, ship, false), n - 1, ship);
    }
  }
}
