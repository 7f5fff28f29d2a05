/** The asteroid shooter's state machine (`useAsteroidGameLogic`) and one
    frame of its loop (`useAsteroidGameLoop`). The React state object is the
    field `state`, replaced whole by every `setGameState` updater; the two
    boolean states and the refs are fields of their own, changed in place.
    The two `setTimeout` callbacks become the events `Respawn` and
    `EndInvulnerability`, which may only fire while their timer is pending. */
module AsteroidShooter {
  import opened Geometry
  import opened Lists
  import opened AsteroidConstants
  import opened AsteroidEntities
  import opened AsteroidCollisions
  import opened Particles

  /** Share of frames on which a bullet leaves a trail particle. */
  const BULLET_TRAIL_CHANCE: real := 0.3

  /** Distance behind the ship at which the thrust trail appears. */
  const EXHAUST_OFFSET: real := 15.0

  /** The React state of the game (`GameState`, without the power-up fields
      no shown logic touches). */
  datatype GameState = GameState(
    spaceship: Spaceship,
    bullets: seq<Bullet>,
    asteroids: seq<Asteroid>,
    score: int,
    level: int,
    lives: int,
    gameOver: bool,
    gameStarted: bool,
    paused: bool)

  /** `createInitialGameState`. */
  function InitialGameState(): GameState
  {
    GameState(InitialSpaceship(), [], [], 0, 1, INITIAL_LIVES, false, false, false)
  }

  /** What every reachable game state satisfies, given the id counters: the
      ship on the playfield, well-formed bullets and asteroids within their
      caps, a non-negative score, a level of at least one, and lives within
      [0, INITIAL_LIVES] and zero exactly when the game is over. */
  predicate StateWellFormed(s: GameState, bulletId: int, asteroidId: int)
  {
    InCanvas(s.spaceship.position)
    && bulletId >= 0 && BulletsWellFormed(s.bullets, bulletId)
    && asteroidId >= 0 && AsteroidsWellFormed(s.asteroids, asteroidId)
    && s.level >= 1 && |s.asteroids| <= MaxAsteroidsForLevel(s.level)
    && s.score >= 0
    && 0 <= s.lives <= INITIAL_LIVES && (s.gameOver <==> s.lives == 0)
  }

  /** The bullet `shoot` fires, given the unit heading `(cos, sin)` of the
      ship's rotation: from half a ship length behind its centre, flying
      along the heading at BULLET_SPEED with a full lifespan. */
  function FiredBullet(id: int, ship: Spaceship, heading: Vec): Bullet
  {
    Bullet(id,
           Vec(ship.position.x - heading.x * (SPACESHIP_SIZE / 2.0), ship.position.y - heading.y * (SPACESHIP_SIZE / 2.0)),
           Vec(heading.x * BULLET_SPEED, heading.y * BULLET_SPEED),
           BULLET_LIFESPAN)
  }

  /** The rotation after one frame of the turn keys. */
  function Turned(rotation: real, c: Controls): real
  {
    rotation - (if c.left then SPACESHIP_ROTATION_SPEED else 0.0) + (if c.right then SPACESHIP_ROTATION_SPEED else 0.0)
  }

  /** The trail particles the loop leaves behind the first n bullets it saw
      at the start of the frame: one for each bullet whose chance draw is
      below BULLET_TRAIL_CHANCE, in bullet order, numbered on from firstId. */
  function BulletTrails(firstId: int, bs: seq<Bullet>, chances: seq<real>, draws: seq<TrailDraw>, n: nat): (r: seq<Particle>)
    requires n <= |bs| == |chances| == |draws|
    requires forall k :: 0 <= k < |draws| ==> ValidTrailDraw(draws[k])
    ensures |r| <= n
    ensures forall k :: 0 <= k < |r| ==> r[k].id == firstId + k && 0 < r[k].life <= r[k].maxLife
  {
    if n == 0 then []
    else
      var prev := BulletTrails(firstId, bs, chances, draws, n - 1);
      var b := bs[n - 1];
      if chances[n - 1] < BULLET_TRAIL_CHANCE then
        prev + [TrailParticle(firstId + |prev|, b.position.x, b.position.y, b.velocity.x, b.velocity.y, draws[n - 1])]
      else prev
  }

  /** The bullet-trail `forEach` of the loop body. */
  method EmitBulletTrails(ps: ParticleSystem, bs: seq<Bullet>, chances: seq<real>, draws: seq<TrailDraw>)
    requires ps.Valid() && |bs| == |chances| == |draws|
    requires forall k :: 0 <= k < |draws| ==> ValidTrailDraw(draws[k])
    modifies ps
    ensures ps.Valid()
    ensures ps.particles == old(ps.particles) + BulletTrails(old(ps.nextId), bs, chances, draws, |bs|)
    ensures ps.nextId == old(ps.nextId) + |BulletTrails(old(ps.nextId), bs, chances, draws, |bs|)|
  {
    var k := 0;
    while k < |bs|
      invariant 0 <= k <= |bs| && ps.Valid()
      invariant ps.particles == old(ps.particles) + BulletTrails(old(ps.nextId), bs, chances, draws, k)
      invariant ps.nextId == old(ps.nextId) + |BulletTrails(old(ps.nextId), bs, chances, draws, k)|
    {
      var b := bs[k];
      if chances[k] < BULLET_TRAIL_CHANCE {
        ps.CreateTrail(b.position.x, b.position.y, b.velocity.x, b.velocity.y, draws[k]);
      }
      k := k + 1;
    }
  }

  class Game {
    /** `POINTS_PER_LEVEL`: score per level needed to advance. */
    const pointsPerLevel: int
    /** `SPEED_INCREASE_PER_LEVEL`: asteroid speed multiplier added per level. */
    const speedPerLevel: real

    /** `gameState`. */
    var state: GameState
    var isInvulnerable: bool
    var spaceshipVisible: bool

    /** `bulletIdRef`, `asteroidIdRef`: the ids the next bullet and asteroid receive. */
    var bulletId: int
    var asteroidId: int
    /** `spawnTimerRef`: frames since the last spawn. */
    var spawnTimer: int
    /** `fireRateTimerRef`: frames left before the next shot is allowed. */
    var fireRateTimer: int
    /** `gameStartTimeRef`: the clock reading, in milliseconds, when the game started. */
    var gameStartTime: real
    /** A respawn timer (`respawnTimerRef`) is scheduled and not yet fired. */
    var respawnPending: bool
    /** An end-of-invulnerability timer (`invulnerabilityTimerRef`) is scheduled and not yet fired. */
    var invulnerabilityPending: bool

    /** Everything but the timer bookkeeping: a well-formed state, the fire
        cooldown within [0, FIRE_COOLDOWN], the spawn timer never negative. */
    ghost predicate Core()
      reads this
    {
      pointsPerLevel > 0 && speedPerLevel > 0.0
      && StateWellFormed(state, bulletId, asteroidId)
      && 0 <= fireRateTimer <= FIRE_COOLDOWN && spawnTimer >= 0
    }

    /** The invariant every operation keeps: besides Core, a hidden ship or
        an invulnerable one always has the timer pending that will undo it. */
    ghost predicate Valid()
      reads this
    {
      Core()
      && (!spaceshipVisible ==> respawnPending)
      && (isInvulnerable ==> invulnerabilityPending)
    }

    /** The ship can be damaged: not invulnerable, visible, game not over. */
    predicate Exposed()
      reads this
    {
      !isInvulnerable && spaceshipVisible && !state.gameOver
    }

    /** The loop runs: started, not over, not paused. */
    predicate Running()
      reads this
    {
      state.gameStarted && !state.gameOver && !state.paused
    }

    /** The hook's initial state, flags and refs. */
    constructor(pointsPerLevel: int, speedPerLevel: real)
      requires pointsPerLevel > 0 && speedPerLevel > 0.0
      ensures Valid() && this.pointsPerLevel == pointsPerLevel && this.speedPerLevel == speedPerLevel
      ensures state == InitialGameState() && !isInvulnerable && spaceshipVisible
      ensures bulletId == 0 && asteroidId == 0 && spawnTimer == 0 && fireRateTimer == 0
      ensures !respawnPending && !invulnerabilityPending
    {
      this.pointsPerLevel := pointsPerLevel;
      this.speedPerLevel := speedPerLevel;
      state := InitialGameState();
      isInvulnerable := false;
      spaceshipVisible := true;
      bulletId := 0;
      asteroidId := 0;
      spawnTimer := 0;
      fireRateTimer := 0;
      gameStartTime := 0.0;
      respawnPending := false;
      invulnerabilityPending := false;
    }

    /** `startGame`, with the start time recorded before the first asteroid
        is made: a fresh started game holding one asteroid with the next id,
        the ship visible and vulnerable. The bullet counter, the fire
        cooldown and any pending timers carry over. */
    method Start(now: real, d: AsteroidDraws)
      requires Core() && ValidDraws(d)
      modifies this`state, this`isInvulnerable, this`spaceshipVisible,
        this`asteroidId, this`spawnTimer, this`gameStartTime
      ensures Valid()
      ensures state == InitialGameState().(gameStarted := true,
        asteroids := [RandomAsteroid(old(asteroidId), d, 1, speedPerLevel, 0.0)])
      ensures asteroidId == old(asteroidId) + 1 && gameStartTime == now && spawnTimer == 0
      ensures !isInvulnerable && spaceshipVisible
    {
      gameStartTime := now;
      var elapsed := (now - gameStartTime) / 1000.0;
      assert elapsed == 0.0;
      var first := RandomAsteroid(asteroidId, d, 1, speedPerLevel, elapsed);
      AppendAsteroidWellFormed([], first, asteroidId);
      assert [] + [first] == [first];
      asteroidId := asteroidId + 1;
      spawnTimer := 0;
      state := InitialGameState().(gameStarted := true, asteroids := [first]);
      isInvulnerable := false;
      spaceshipVisible := true;
    }

    /** `restartGame`: both pending timers cancelled, then `startGame`. */
    method Restart(now: real, d: AsteroidDraws)
      requires Valid() && ValidDraws(d)
      modifies this`state, this`isInvulnerable, this`spaceshipVisible,
        this`asteroidId, this`spawnTimer, this`gameStartTime, this`respawnPending, this`invulnerabilityPending
      ensures Valid()
      ensures !respawnPending && !invulnerabilityPending
      ensures state == InitialGameState().(gameStarted := true,
        asteroids := [RandomAsteroid(old(asteroidId), d, 1, speedPerLevel, 0.0)])
      ensures asteroidId == old(asteroidId) + 1 && gameStartTime == now && spawnTimer == 0
      ensures !isInvulnerable && spaceshipVisible
    {
      respawnPending := false;
      invulnerabilityPending := false;
      Start(now, d);
    }

    /** `pauseGame`: toggles the pause flag, whatever the game's state. */
    method Pause()
      requires Valid()
      modifies this`state
      ensures Valid() && state == old(state).(paused := !old(state).paused)
    {
      state := state.(paused := !state.paused);
    }

    /** `shoot`, given the unit heading `(cos, sin)` of the ship's rotation.
        Nothing changes when MAX_BULLETS are in flight, the game is over or
        not started, or the cooldown is running; otherwise exactly one bullet
        with the next id is appended and the cooldown is set. */
    method Shoot(heading: Vec)
      requires Valid()
      modifies this`state, this`bulletId, this`fireRateTimer
      ensures Valid()
      ensures var s := old(state);
        if |s.bullets| >= MAX_BULLETS || s.gameOver || !s.gameStarted || old(fireRateTimer) > 0
        then state == s && bulletId == old(bulletId) && fireRateTimer == old(fireRateTimer)
        else (state == s.(bullets := s.bullets + [FiredBullet(old(bulletId), s.spaceship, heading)])
              && bulletId == old(bulletId) + 1 && fireRateTimer == FIRE_COOLDOWN)
    {
      if |state.bullets| >= MAX_BULLETS || state.gameOver || !state.gameStarted {
        return;
      }
      if fireRateTimer > 0 {
        return;
      }
      fireRateTimer := FIRE_COOLDOWN;
      var b := FiredBullet(bulletId, state.spaceship, heading);
      AppendBulletWellFormed(state.bullets, b, bulletId);
      bulletId := bulletId + 1;
      state := state.(bullets := state.bullets + [b]);
    }

    /** `updateSpaceship`, given the velocity after thrust, friction and the
        speed clamp: the cooldown counts down to zero, the turn keys turn the
        ship, and it moves by the new velocity and wraps. */
    method UpdateSpaceship(c: Controls, velocity: Vec)
      requires Valid()
      modifies this`state, this`fireRateTimer
      ensures Valid()
      ensures fireRateTimer == Max(old(fireRateTimer) - 1, 0)
      ensures state == old(state).(spaceship := Spaceship(
        WrapPosition(Add(old(state).spaceship.position, velocity)),
        Turned(old(state).spaceship.rotation, c), velocity, c.thrust))
    {
      if fireRateTimer > 0 {
        fireRateTimer := fireRateTimer - 1;
      }
      var ship := state.spaceship;
      var rotation := ship.rotation;
      if c.left {
        rotation := rotation - SPACESHIP_ROTATION_SPEED;
      }
      if c.right {
        rotation := rotation + SPACESHIP_ROTATION_SPEED;
      }
      state := state.(spaceship := Spaceship(WrapPosition(Add(ship.position, velocity)), rotation, velocity, c.thrust));
    }

    /** `updateBullets`. */
    method UpdateBullets()
      requires Valid()
      modifies this`state
      ensures Valid()
      ensures state == old(state).(bullets := AdvanceBullets(old(state).bullets))
    {
      AdvanceBulletsWellFormed(state.bullets, bulletId);
      state := state.(bullets := AdvanceBullets(state.bullets));
    }

    /** `spawnAsteroid` at clock reading `now`, with asteroid speeds scaled
        for the current level. Nothing changes unless the game runs;
        otherwise the spawn timer counts one frame, and when it has reached
        the spawn interval and the level's cap leaves room, one asteroid with
        the next id is appended and the timer restarts. */
    method SpawnAsteroid(now: real, d: AsteroidDraws)
      requires Valid() && ValidDraws(d)
      modifies this`state, this`asteroidId, this`spawnTimer
      ensures Valid()
      ensures !old(Running()) ==> state == old(state) && asteroidId == old(asteroidId) && spawnTimer == old(spawnTimer)
      ensures old(Running()) ==>
        var s := old(state);
        var elapsed := (now - gameStartTime) / 1000.0;
        if (old(spawnTimer) + 1) as real >= SpawnRate(elapsed, s.level) && |s.asteroids| < MaxAsteroidsForLevel(s.level)
        then (state == s.(asteroids := s.asteroids + [RandomAsteroid(old(asteroidId), d, s.level, speedPerLevel, elapsed)])
              && asteroidId == old(asteroidId) + 1 && spawnTimer == 0)
        else state == s && asteroidId == old(asteroidId) && spawnTimer == old(spawnTimer) + 1
    {
      if !state.gameStarted || state.gameOver || state.paused {
        return;
      }
      var elapsed := (now - gameStartTime) / 1000.0;
      var spawnRate := SpawnRate(elapsed, state.level);
      var maxAsteroids := MaxAsteroidsForLevel(state.level);
      spawnTimer := spawnTimer + 1;
      if spawnTimer as real >= spawnRate && |state.asteroids| < maxAsteroids {
        spawnTimer := 0;
        var a := RandomAsteroid(asteroidId, d, state.level, speedPerLevel, elapsed);
        AppendAsteroidWellFormed(state.asteroids, a, asteroidId);
        asteroidId := asteroidId + 1;
        state := state.(asteroids := state.asteroids + [a]);
      }
    }

    /** `updateAsteroids`: every asteroid drifts, whether or not the game
        runs, then `spawnAsteroid`. Only the asteroid list changes: the
        drifted asteroids, followed by the spawned asteroid when the game
        runs, the timer has reached the spawn interval and the level's cap
        leaves room; the timer restarts on a spawn and otherwise counts the
        frame while the game runs. */
    method UpdateAsteroids(now: real, d: AsteroidDraws)
      requires Valid() && ValidDraws(d)
      modifies this`state, this`asteroidId, this`spawnTimer
      ensures Valid()
      ensures var s := old(state);
        var drifted := DriftAsteroids(s.asteroids);
        var elapsed := (now - gameStartTime) / 1000.0;
        if old(Running()) && (old(spawnTimer) + 1) as real >= SpawnRate(elapsed, s.level)
           && |drifted| < MaxAsteroidsForLevel(s.level)
        then (state == s.(asteroids := drifted + [RandomAsteroid(old(asteroidId), d, s.level, speedPerLevel, elapsed)])
              && asteroidId == old(asteroidId) + 1 && spawnTimer == 0)
        else (state == s.(asteroids := drifted) && asteroidId == old(asteroidId)
              && spawnTimer == old(spawnTimer) + (if old(Running()) then 1 else 0))
      ensures |state.asteroids| == |old(state).asteroids| || |state.asteroids| == |old(state).asteroids| + 1
      ensures state.asteroids[..|old(state).asteroids|] == DriftAsteroids(old(state).asteroids)
    {
      DriftAsteroidsWellFormed(state.asteroids, asteroidId);
      state := state.(asteroids := DriftAsteroids(state.asteroids));
      ghost var drifted := state.asteroids;
      SpawnAsteroid(now, d);
      assert state.asteroids[..|drifted|] == drifted;
    }

    /** `handleSpaceshipHit`: one life lost. Losing the last one ends the
        game; otherwise the ship is hidden and a respawn is scheduled. */
    method HandleHit()
      requires Valid()
      modifies this`state, this`spaceshipVisible, this`respawnPending
      ensures Valid()
      ensures var s := old(state);
        if s.lives <= 1
        then (state == s.(lives := 0, gameOver := true)
              && spaceshipVisible == old(spaceshipVisible) && respawnPending == old(respawnPending))
        else state == s.(lives := s.lives - 1) && !spaceshipVisible && respawnPending
    {
      var newLives := state.lives - 1;
      if newLives <= 0 {
        state := state.(lives := 0, gameOver := true);
      } else {
        spaceshipVisible := false;
        respawnPending := true;
        state := state.(lives := newLives);
      }
    }

    /** `checkLevelProgression`, also run inline at the end of
        `checkCollisions`: one level up once the score reaches the current
        level times POINTS_PER_LEVEL. */
    method CheckLevelProgression()
      requires Valid()
      modifies this`state
      ensures Valid()
      ensures var s := old(state);
        state == s.(level := s.level + (if s.score >= s.level * pointsPerLevel then 1 else 0))
    {
      if state.score >= state.level * pointsPerLevel {
        MaxAsteroidsMonotone(state.level, state.level + 1);
        state := state.(level := state.level + 1);
      }
    }

    /** The bullet half of `checkCollisions`: the backward sweep of every
        bullet against the asteroids, its lists and score stored. */
    method SweepBullets(exposed: bool) returns (shipHit: bool)
      requires Valid()
      modifies this`state
      ensures Valid()
      ensures var s := old(state);
        var p := BulletPass(s.bullets, s.asteroids, s.score, s.spaceship.position, exposed);
        state == s.(bullets := p.bullets, asteroids := p.asteroids, score := p.score) && shipHit == p.shipHit
      ensures !exposed ==> !shipHit
    {
      var s := state;
      var p := RunBulletPass(s.bullets, s.asteroids, s.score, s.spaceship.position, exposed);
      SweepWellFormed(Pass(s.bullets, s.asteroids, s.score, false), |s.bullets|, s.spaceship.position, exposed, bulletId, asteroidId);
      if !exposed {
        SweepShipSafe(Pass(s.bullets, s.asteroids, s.score, false), |s.bullets|, s.spaceship.position);
      }
      Store(p.bullets, p.asteroids, p.score);
      shipHit := p.shipHit;
    }

    /** Stores the outcome of the sweep: well-formed lists, no more
        asteroids than before and a score no lower. */
    method Store(bs: seq<Bullet>, rocks: seq<Asteroid>, score: int)
      requires Valid() && BulletsWellFormed(bs, bulletId) && AsteroidsWellFormed(rocks, asteroidId)
      requires |rocks| <= |state.asteroids| && score >= state.score
      modifies this`state
      ensures Valid() && state == old(state).(bullets := bs, asteroids := rocks, score := score)
    {
      state := state.(bullets := bs, asteroids := rocks, score := score);
    }

    /** `checkCollisions`: the bullet sweep, then direct contact if the blast
        has not already hit the exposed ship, then at most one level gained;
        a hit is then handled once. Score never falls and at most one life
        is lost. */
    method CheckCollisions()
      requires Valid()
      modifies this`state, this`spaceshipVisible, this`respawnPending
      ensures Valid()
      ensures var s := old(state);
        var p := BulletPass(s.bullets, s.asteroids, s.score, s.spaceship.position, old(Exposed()));
        var hit := p.shipHit || (old(Exposed()) && ShipStruck(s.spaceship.position, p.asteroids));
        var up := if p.score >= s.level * pointsPerLevel then 1 else 0;
        state == s.(bullets := p.bullets, asteroids := p.asteroids, score := p.score, level := s.level + up,
                    lives := if hit then Max(s.lives - 1, 0) else s.lives,
                    gameOver := s.gameOver || (hit && s.lives <= 1))
        && (hit && s.lives > 1 ==> !spaceshipVisible && respawnPending)
        && (!(hit && s.lives > 1) ==> spaceshipVisible == old(spaceshipVisible) && respawnPending == old(respawnPending))
      ensures !old(Exposed()) ==> state.lives == old(state).lives && state.gameOver == old(state).gameOver
      ensures state.score >= old(state).score
    {
      var exposed := !isInvulnerable && spaceshipVisible && !state.gameOver;
      var ship := state.spaceship.position;
      var hit := SweepBullets(exposed);
      if !hit && exposed {
        hit := ShipContact(ship, state.asteroids);
      }
      CheckLevelProgression();
      if hit {
        HandleHit();
      }
    }

    /** `makeInvulnerable`: the ship invulnerable, the end-of-invulnerability
        timer (re)scheduled. */
    method MakeInvulnerable()
      requires Valid()
      modifies this`isInvulnerable, this`invulnerabilityPending
      ensures Valid() && isInvulnerable && invulnerabilityPending
    {
      isInvulnerable := true;
      invulnerabilityPending := true;
    }

    /** The respawn timer fires (`respawnSpaceship`): the ship back at rest in
        the centre, visible and invulnerable; nothing else in the state
        changes. */
    method Respawn()
      requires Valid() && respawnPending
      modifies this`state, this`spaceshipVisible, this`respawnPending,
        this`isInvulnerable, this`invulnerabilityPending
      ensures Valid()
      ensures state == old(state).(spaceship := InitialSpaceship())
      ensures spaceshipVisible && !respawnPending && isInvulnerable && invulnerabilityPending
    {
      respawnPending := false;
      state := state.(spaceship := InitialSpaceship());
      spaceshipVisible := true;
      MakeInvulnerable();
    }

    /** The invulnerability timer fires: the ship can be hit again. */
    method EndInvulnerability()
      requires Valid() && invulnerabilityPending
      modifies this`isInvulnerable, this`invulnerabilityPending
      ensures Valid() && !isInvulnerable && !invulnerabilityPending
    {
      isInvulnerable := false;
      invulnerabilityPending := false;
    }

    /** The game half of one frame: the ship, the bullets, the asteroids
        (with spawning) and the collisions, in that order. */
    method Step(c: Controls, velocity: Vec, now: real, d: AsteroidDraws)
      requires Valid() && ValidDraws(d)
      modifies this`state, this`fireRateTimer, this`asteroidId, this`spawnTimer,
        this`spaceshipVisible, this`respawnPending
      ensures Valid()
      ensures state.score >= old(state).score && old(state).level <= state.level <= old(state).level + 1
      ensures old(state).lives - 1 <= state.lives <= old(state).lives
      ensures asteroidId == old(asteroidId) || asteroidId == old(asteroidId) + 1
    {
      UpdateSpaceship(c, velocity);
      UpdateBullets();
      UpdateAsteroids(now, d);
      CheckCollisions();
    }

    /** One frame of the loop. It runs only while the game is started, not
        over and not paused; then it advances the game (Step), ages the
        particles, and leaves trails behind the ship (when thrusting) and
        behind some of the bullets, both as they were when the frame began.
        `heading` is the unit heading of the ship's rotation at that time. */
    method Tick(c: Controls, velocity: Vec, now: real, d: AsteroidDraws, ps: ParticleSystem,
                heading: Vec, exhaust: TrailDraw, chances: seq<real>, trails: seq<TrailDraw>)
      requires Valid() && ps.Valid() && ValidDraws(d) && ValidTrailDraw(exhaust)
      requires |chances| == |trails| == |state.bullets|
      requires forall k :: 0 <= k < |trails| ==> ValidTrailDraw(trails[k])
      modifies this, ps
      ensures Valid() && ps.Valid()
      ensures !old(Running()) ==> unchanged(this) && unchanged(ps)
      ensures state.score >= old(state).score && old(state).level <= state.level <= old(state).level + 1
      ensures old(state).lives - 1 <= state.lives <= old(state).lives && bulletId == old(bulletId)
    {
      if !state.gameStarted || state.gameOver || state.paused {
        return;
      }
      var before := state;
      Step(c, velocity, now, d);
      ps.UpdateParticles();
      if c.thrust {
        var ship := before.spaceship;
        ps.CreateTrail(ship.position.x - heading.x * EXHAUST_OFFSET,
                       ship.position.y - heading.y * EXHAUST_OFFSET,
                       -ship.velocity.x, -ship.velocity.y, exhaust);
      }
      EmitBulletTrails(ps, before.bullets, chances, trails);
    }
  }
}
