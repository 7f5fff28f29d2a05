/** Two places where `useAsteroidGameLogic` does not scale asteroid speeds
    the way its design evidently intends. Each is written here both as the
    code stands and as corrected; the game class uses the corrected forms.

    1. `startGame` makes the first asteroid before it records the new start
       time, so that asteroid's play time is measured from the previous start
       (or from the epoch, on the first game) instead of being zero.
    2. `spawnAsteroid` is memoised with no dependencies, so the
       `createAsteroid` it calls reads the level of the first render, which
       is always 1: the per-level speed increase never applies. */
module AsteroidFindings {
  import opened Geometry
  import opened AsteroidConstants
  import opened AsteroidEntities

  /** The speed the draws give a new asteroid, before its heading. */
  function DrawnSpeed(d: AsteroidDraws, level: int, speedPerLevel: real, elapsed: real): real
    requires ValidDraws(d)
  {
    AsteroidSpeed(SizeFor(d.size), KindFor(d.kind), d.speed, level, speedPerLevel, elapsed)
  }

  /** The speed the draws alone give, before any growth: positive. */
  function BaseSpeed(d: AsteroidDraws): (v: real)
    requires ValidDraws(d)
    ensures v > 0.0
  {
    var size := SizeFor(d.size);
    var base := d.speed * (MaxSpeed(size) - MinSpeed(size)) + MinSpeed(size);
    MulNonNegative(d.speed, MaxSpeed(size) - MinSpeed(size));
    MulPositive(base, KindSpeed(KindFor(d.kind)));
    base * KindSpeed(KindFor(d.kind))
  }

  /** A new asteroid's speed factors into the draws' base speed, the time
      factor and the level factor. */
  lemma SpeedFactors(d: AsteroidDraws, level: int, speedPerLevel: real, elapsed: real)
    requires ValidDraws(d)
    ensures DrawnSpeed(d, level, speedPerLevel, elapsed)
      == BaseSpeed(d) * TimeSpeedMultiplier(elapsed) * LevelSpeedMultiplier(level, speedPerLevel)
  {
    var size := SizeFor(d.size);
    var base := d.speed * (MaxSpeed(size) - MinSpeed(size)) + MinSpeed(size);
    var k := KindSpeed(KindFor(d.kind));
    var t := TimeSpeedMultiplier(elapsed);
    var l := LevelSpeedMultiplier(level, speedPerLevel);
    assert DrawnSpeed(d, level, speedPerLevel, elapsed) == base * t * k * l;
    assert base * t * k * l == (base * k) * t * l;
  }

  /** Multiplying a positive base by a larger factor gives a larger result. */
  lemma ScaleGrows(b: real, x: real, y: real)
    requires b > 0.0 && x < y
    ensures b * x < b * y
  {
    assert b * y - b * x == b * (y - x);
    MulPositive(b, y - x);
  }

  // Finding 1: the first asteroid's play time.

  /** `startGame` as written: the first asteroid is made while the start
      time still holds the previous game's start. */
  function FirstAsteroidAsWritten(id: int, d: AsteroidDraws, speedPerLevel: real, now: real, previousStart: real): (a: Asteroid)
    requires ValidDraws(d)
    ensures a.velocity == Scale(d.heading, DrawnSpeed(d, 1, speedPerLevel, (now - previousStart) / 1000.0))
  {
    RandomAsteroid(id, d, 1, speedPerLevel, (now - previousStart) / 1000.0)
  }

  /** On the first game of a session the previous start is 0, so at a clock
      reading of 1.7e12 ms the first asteroid flies 85000001 times faster
      than its draws say. */
  lemma StartClockCounterexample(d: AsteroidDraws, speedPerLevel: real)
    requires ValidDraws(d)
    ensures FirstAsteroidAsWritten(0, d, speedPerLevel, 1700000000000.0, 0.0).velocity
      == Scale(d.heading, 85000001.0 * BaseSpeed(d))
  {
    SpeedFactors(d, 1, speedPerLevel, (1700000000000.0 - 0.0) / 1000.0);
  }

  /** More generally, any start after the previous one makes the first
      asteroid faster than its draws say. */
  lemma StartClockSpeedsUp(d: AsteroidDraws, speedPerLevel: real, now: real, previousStart: real)
    requires ValidDraws(d) && previousStart < now
    ensures DrawnSpeed(d, 1, speedPerLevel, (now - previousStart) / 1000.0) > BaseSpeed(d)
  {
    var e := (now - previousStart) / 1000.0;
    SpeedFactors(d, 1, speedPerLevel, e);
    ScaleGrows(BaseSpeed(d), 1.0, TimeSpeedMultiplier(e));
  }

  /** Corrected: with the start time recorded first (as `Game.Start` does),
      the first asteroid gets exactly the speed its draws say, without any
      time or level growth. */
  lemma FirstAsteroidAtBaseSpeed(d: AsteroidDraws, speedPerLevel: real)
    requires ValidDraws(d)
    ensures DrawnSpeed(d, 1, speedPerLevel, 0.0) == BaseSpeed(d)
    ensures RandomAsteroid(0, d, 1, speedPerLevel, 0.0).velocity == Scale(d.heading, BaseSpeed(d))
  {
    SpeedFactors(d, 1, speedPerLevel, 0.0);
  }

  // Finding 2: the level an asteroid is spawned for.

  /** `spawnAsteroid` as written: whatever the game's level, the asteroid is
      made for level 1. */
  function SpawnedAsteroidAsWritten(id: int, d: AsteroidDraws, level: int, speedPerLevel: real, elapsed: real): (a: Asteroid)
    requires ValidDraws(d)
    ensures a.velocity == Scale(d.heading, DrawnSpeed(d, 1, speedPerLevel, elapsed))
  {
    RandomAsteroid(id, d, 1, speedPerLevel, elapsed)
  }

  /** At level 3 with a 0.1 increase per level, an asteroid should fly 1.2
      times as fast as at level 1; as written it flies at the level-1 speed. */
  lemma StaleLevelCounterexample(d: AsteroidDraws, elapsed: real)
    requires ValidDraws(d) && elapsed >= 0.0
    ensures DrawnSpeed(d, 3, 0.1, elapsed) == 1.2 * DrawnSpeed(d, 1, 0.1, elapsed)
    ensures SpawnedAsteroidAsWritten(0, d, 3, 0.1, elapsed).velocity == Scale(d.heading, DrawnSpeed(d, 1, 0.1, elapsed))
    ensures DrawnSpeed(d, 1, 0.1, elapsed) < DrawnSpeed(d, 3, 0.1, elapsed)
  {
    SpeedFactors(d, 3, 0.1, elapsed);
    SpeedFactors(d, 1, 0.1, elapsed);
    var bt := BaseSpeed(d) * TimeSpeedMultiplier(elapsed);
    MulPositive(BaseSpeed(d), TimeSpeedMultiplier(elapsed));
    assert DrawnSpeed(d, 3, 0.1, elapsed) == bt * 1.2;
    assert DrawnSpeed(d, 1, 0.1, elapsed) == bt * 1.0;
  }

  /** Corrected: spawning for the game's current level (as
      `Game.SpawnAsteroid` does), a higher level always gives a faster
      asteroid from the same draws and play time. */
  lemma LevelSpeedsUp(d: AsteroidDraws, lower: int, higher: int, speedPerLevel: real, elapsed: real)
    requires ValidDraws(d) && lower < higher && speedPerLevel > 0.0 && elapsed >= 0.0
    ensures DrawnSpeed(d, lower, speedPerLevel, elapsed) < DrawnSpeed(d, higher, speedPerLevel, elapsed)
  {
    SpeedFactors(d, lower, speedPerLevel, elapsed);
    SpeedFactors(d, higher, speedPerLevel, elapsed);
    var bt := BaseSpeed(d) * TimeSpeedMultiplier(elapsed);
    MulPositive(BaseSpeed(d), TimeSpeedMultiplier(elapsed));
    var gap := (higher - lower) as real;
    MulPositive(gap, speedPerLevel);
    assert LevelSpeedMultiplier(higher, speedPerLevel) - LevelSpeedMultiplier(lower, speedPerLevel) == gap * speedPerLevel;
    ScaleGrows(bt, LevelSpeedMultiplier(lower, speedPerLevel), LevelSpeedMultiplier(higher, speedPerLevel));
  }
}
