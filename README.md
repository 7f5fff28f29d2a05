# Arcade simulation core, modelled in Dafny

This project models the per-frame simulation logic of two browser arcade games: an Asteroids-style shooter and a Flappy Bird clone. It also models the particle pool that the shooter's loop feeds. Rendering, keyboard wiring and scheduling are not part of the model.

The shooter is `class AsteroidShooter.Game`. It holds three things:

- the React game state (ship, bullets, asteroids, score, level, lives and the started/over/paused flags) as one `GameState` value;
- the hook's refs: the bullet and asteroid id counters, the spawn timer, the fire cooldown and the start time;
- the `isInvulnerable` and `spaceshipVisible` flags.

Its methods mirror the hook's callbacks. The two `setTimeout` callbacks become explicit events, `Respawn` and `EndInvulnerability`, each allowed only while its timer is pending. `Tick` runs one animation frame in the loop's order: ship, bullets, asteroids (with spawning), collisions, then particles.

The collision pass is specified by pure functions in `AsteroidCollisions` and carried out by loop methods proved equal to them:

- `HitIndex` finds the highest-index asteroid a bullet hits;
- `BulletStep` resolves one bullet;
- `Sweep` walks the bullets from the last index downward.

Distances are compared squared. Headings and the ship's post-thrust velocity are inputs. `Math.random()` draws and `Date.now()` readings are parameters.

The Flappy Bird clone is `class Flappy.FlappyGame`. Its pure parts live in `FlappyLogic`:

- the collision predicate, checked by a loop method;
- pipe generation from two draws;
- the pipe scroll and cull;
- the scoring pass, which sets `passed` in place and adds one point per newly passed pipe.

The particle pool is `class Particles.ParticleSystem`. It appends particles with consecutive ids and ages them each frame.

Numbers are `real`. JavaScript's truncating `%` is modelled exactly (`Geometry.JsRem`), and `wrapPosition` is proved equal to a floor-based modulo.

## Model

| member | source | states |
|---|---|---|
| Geometry.JsRem | src/hooks/useAsteroidGameLogic.ts:43-44 | JavaScript `%`: the remainder is smaller in magnitude than the modulus, has the dividend's sign, and is the dividend itself (or the dividend minus the modulus) in the first two periods |
| Geometry.WithinTranslated | src/hooks/useAsteroidGameLogic.ts:377-382 | the distance tests compare only the difference of the two positions: moving both by the same offset never changes whether they are within a radius |
| Geometry.WrapCoord | src/hooks/useAsteroidGameLogic.ts:42-45 | one wrapped coordinate lies in [0, m) and a coordinate already in range is unchanged |
| Geometry.WrapIsFloorMod | src/hooks/useAsteroidGameLogic.ts:42-45 | the double-`%` wrap equals the floor-based modulo v - m*floor(v/m) |
| AsteroidConstants.Diameter | src/constants/asteroidGameConstants.ts:26-30 | every asteroid size is positive |
| AsteroidConstants.MaxSpeed | src/constants/asteroidGameConstants.ts:21-25 | each size's speed range is non-empty and positive |
| AsteroidConstants.KindHealth | src/constants/asteroidGameConstants.ts:33-38 | every asteroid kind starts with at least 1 health |
| AsteroidConstants.KindSpeed | src/constants/asteroidGameConstants.ts:33-38 | every kind's speed multiplier is positive |
| AsteroidConstants.KindPoints | src/constants/asteroidGameConstants.ts:33-38 | every kind is worth at least 1 point |
| AsteroidConstants.SizePoints | src/constants/asteroidGameConstants.ts:42-46 | every size is worth at least 20 points |
| AsteroidEntities.WrapPosition | src/hooks/useAsteroidGameLogic.ts:42-45 | the wrapped position is on the canvas, and in-range coordinates are unchanged |
| AsteroidEntities.WrapPositionIsFloorMod | src/hooks/useAsteroidGameLogic.ts:42-45 | wrapping is the floor-based modulo on each axis |
| AsteroidEntities.AdvanceBulletsMember | src/hooks/useAsteroidGameLogic.ts:330-344 | a bullet survives `updateBullets` exactly when it had lifespan > 1, moved by its velocity and aged by 1; the list never grows |
| AsteroidEntities.AdvanceBulletsAppend | src/hooks/useAsteroidGameLogic.ts:330-344 | `updateBullets` treats each bullet on its own and keeps their order: advancing a list split in two gives the two advanced halves in the same order |
| AsteroidEntities.AdvanceBulletsWellFormed | src/hooks/useAsteroidGameLogic.ts:330-344 | after `updateBullets` the bullets still have increasing ids below the counter, lifespans in (0, BULLET_LIFESPAN] and at most MAX_BULLETS entries |
| AsteroidEntities.DriftAsteroids | src/hooks/useAsteroidGameLogic.ts:346-358 | every asteroid stays, in order, wrapped onto the canvas, with id, size, kind, health and velocity unchanged |
| AsteroidEntities.DriftAsteroidsWellFormed | src/hooks/useAsteroidGameLogic.ts:346-358 | drifting keeps the asteroid list's invariant (increasing ids below the counter, 1 <= health <= maxHealth) |
| AsteroidEntities.AppendBulletWellFormed | src/hooks/useAsteroidGameLogic.ts:255-275 | a bullet with the counter's id and a fresh lifespan can be appended below the cap |
| AsteroidEntities.AppendAsteroidWellFormed | src/hooks/useAsteroidGameLogic.ts:112-123 | an asteroid with the counter's id and full health can be appended |
| AsteroidEntities.SpawnRate | src/hooks/useAsteroidGameLogic.ts:159-163 | the spawn threshold is at least 20 and, for non-negative time and level, at most 180 |
| AsteroidEntities.SpawnRateMonotone | src/hooks/useAsteroidGameLogic.ts:163 | more play time or a higher level never raises the threshold |
| AsteroidEntities.MaxAsteroidsForLevel | src/hooks/useAsteroidGameLogic.ts:165-168 | the cap never exceeds MAX_ASTEROIDS and is at least BASE_ASTEROIDS from level 1 on |
| AsteroidEntities.MaxAsteroidsMonotone | src/hooks/useAsteroidGameLogic.ts:165-168 | the cap never shrinks as the level rises |
| AsteroidEntities.SpawnPoint | src/hooks/useAsteroidGameLogic.ts:128-136 | a spawn point is off the canvas, 50 units beyond one of its four edges |
| AsteroidEntities.KindFor | src/hooks/useAsteroidGameLogic.ts:103 | a draw picks `normal` exactly on [0, 0.25), `fast` on [0.25, 0.5), `armored` on [0.5, 0.75) and `explosive` on [0.75, 1) |
| AsteroidEntities.AsteroidSpeed | src/hooks/useAsteroidGameLogic.ts:98-109 | from level 1 and non-negative time, the speed is at least the size's minimum times the kind's multiplier |
| AsteroidEntities.GrowthAtLeastOne | src/hooks/useAsteroidGameLogic.ts:100-101 | the time and level multipliers together never slow an asteroid down |
| AsteroidEntities.NewAsteroid | src/hooks/useAsteroidGameLogic.ts:97-125 | `createAsteroid` gives the counter's id, the position and size asked for, the drawn kind with full health, rotation 0 and rotation speed in [-0.05, 0.05) |
| AsteroidEntities.RandomAsteroid | src/hooks/useAsteroidGameLogic.ts:127-150 | `createRandomAsteroid` gives an off-canvas asteroid of the drawn size at full health |
| AsteroidCollisions.Reward | src/hooks/useAsteroidGameLogic.ts:392-394 | a destroyed asteroid is worth at least its size's points |
| AsteroidCollisions.Blast | src/hooks/useAsteroidGameLogic.ts:414-424 | the explosion changes only health: asteroids within 100 lose 1 health floored at 1, others are untouched, and none is destroyed |
| AsteroidCollisions.HitIndex | src/hooks/useAsteroidGameLogic.ts:373-382 | the asteroid found is hit by the bullet and no higher-index asteroid is (the downward scan stops at the first hit) |
| AsteroidCollisions.BulletStep | src/hooks/useAsteroidGameLogic.ts:370-434 | one bullet's resolution never lowers the score, never clears a ship hit, removes at most that bullet and adds no asteroid |
| AsteroidCollisions.Sweep | src/hooks/useAsteroidGameLogic.ts:370-434 | the downward walk over bullets never lowers the score or clears a ship hit and never grows either list |
| AsteroidCollisions.RunBulletPass | src/hooks/useAsteroidGameLogic.ts:370-434 | the nested backward loops with `splice` compute exactly the specified pass |
| AsteroidCollisions.BulletAgainstAsteroids | src/hooks/useAsteroidGameLogic.ts:373-433 | the inner loop computes exactly one bullet's step |
| AsteroidCollisions.ApplyHit | src/hooks/useAsteroidGameLogic.ts:383-429 | a hit removes the bullet and resolves the asteroid as specified |
| AsteroidCollisions.ShipContact | src/hooks/useAsteroidGameLogic.ts:437-450 | the contact loop reports a hit exactly when some asteroid touches the ship |
| AsteroidCollisions.HitEffect | src/hooks/useAsteroidGameLogic.ts:383-429 | a bullet that hits nothing changes nothing; a hit removes exactly that bullet; an asteroid with health > 1 loses exactly 1 and nothing else changes; otherwise it is removed and the score rises by its reward |
| AsteroidCollisions.DestroyedIsGone | src/hooks/useAsteroidGameLogic.ts:386-390 | a destroyed asteroid's id is no longer in the list |
| AsteroidCollisions.ResolveHitWellFormed | src/hooks/useAsteroidGameLogic.ts:383-429 | resolving a hit keeps the asteroid list's invariant |
| AsteroidCollisions.BlastWellFormed | src/hooks/useAsteroidGameLogic.ts:414-424 | the blast keeps the asteroid list's invariant |
| AsteroidCollisions.BulletStepWellFormed | src/hooks/useAsteroidGameLogic.ts:370-434 | one bullet's step keeps both lists' invariants |
| AsteroidCollisions.SweepWellFormed | src/hooks/useAsteroidGameLogic.ts:370-434 | the whole bullet pass keeps both lists' invariants |
| AsteroidCollisions.SweepShipSafe | src/hooks/useAsteroidGameLogic.ts:409-411 | an invulnerable, hidden or finished ship is never hit by an explosion |
| Particles.Burst | src/hooks/useParticleSystem.ts:20-38 | an explosion makes one particle per draw, with consecutive ids, at (x, y), in the given colour, with life = maxLife = 30 |
| Particles.TrailParticle | src/hooks/useParticleSystem.ts:43-54 | a trail particle has the counter's id, life = maxLife = 15, colour `#ffff00`, position within 2 of (x, y), velocity within 0.25 of a tenth of (vx, vy), size in [1, 3) |
| Particles.AgedMember | src/hooks/useParticleSystem.ts:59-71 | a particle survives an update exactly when its life was > 1; it moved by its old velocity, its velocity is scaled by 0.98 and its life is one less; the pool never grows |
| Particles.AgedWellFormed | src/hooks/useParticleSystem.ts:59-71 | after an update every particle still has 0 < life <= maxLife and increasing ids below the counter |
| Particles.AppendFresh | src/hooks/useParticleSystem.ts:18 | particles numbered on from the counter keep the ids distinct and increasing |
| Particles.ParticleSystem.constructor | src/hooks/useParticleSystem.ts:17-18 | the pool starts empty with the counter at 0 |
| Particles.ParticleSystem.CreateExplosion | src/hooks/useParticleSystem.ts:20-41 | exactly `count` particles (none for a count of 0 or less) are appended and the counter advances by as many |
| Particles.ParticleSystem.CreateTrail | src/hooks/useParticleSystem.ts:43-57 | exactly one trail particle is appended and the counter advances by 1 |
| Particles.ParticleSystem.UpdateParticles | src/hooks/useParticleSystem.ts:59-72 | the pool becomes its aged survivors, in order, and the counter is unchanged |
| AsteroidShooter.BulletTrails | src/hooks/useAsteroidGameLoop.ts:50-54 | at most one trail per bullet, with consecutive ids and a valid life |
| AsteroidShooter.EmitBulletTrails | src/hooks/useAsteroidGameLoop.ts:50-54 | the `forEach` appends exactly the specified trails and advances the counter by their number |
| AsteroidShooter.Game.constructor | src/hooks/useAsteroidGameLogic.ts:17-40 | the game starts in the initial state with all counters at 0, visible and not invulnerable |
| AsteroidShooter.Game.Start | src/hooks/useAsteroidGameLogic.ts:204-214 | the state is reset to the initial one, started, with one fresh asteroid at its base speed; the spawn timer and start time are reset |
| AsteroidShooter.Game.Restart | src/hooks/useAsteroidGameLogic.ts:216-224 | pending respawn and invulnerability timers are cancelled, then the game starts afresh |
| AsteroidShooter.Game.Pause | src/hooks/useAsteroidGameLogic.ts:226-228 | only the paused flag flips |
| AsteroidShooter.Game.Shoot | src/hooks/useAsteroidGameLogic.ts:230-277 | nothing changes when bullets are at the cap, the game is over or not started, or the cooldown runs; otherwise exactly one bullet with a fresh id is appended and the cooldown is 8 |
| AsteroidShooter.Game.UpdateSpaceship | src/hooks/useAsteroidGameLogic.ts:279-328 | the cooldown drops by 1 down to 0; the ship turns by the controls, takes the given velocity and moves to the wrapped position |
| AsteroidShooter.Game.UpdateBullets | src/hooks/useAsteroidGameLogic.ts:330-344 | only the bullet list changes, to its moved and aged survivors |
| AsteroidShooter.Game.SpawnAsteroid | src/hooks/useAsteroidGameLogic.ts:152-184 | nothing changes unless running; otherwise the timer is incremented, and when it reaches the spawn rate below the level cap exactly one asteroid is appended and the timer is reset to 0 |
| AsteroidShooter.Game.UpdateAsteroids | src/hooks/useAsteroidGameLogic.ts:346-360 | only the asteroids change, and they always drift; when the game runs, the timer has reached the spawn interval and the level's cap leaves room, `RandomAsteroid` with the next id for the current level and play time follows them, the id counter moves on and the timer restarts; otherwise nothing is added, the counter stays and the timer counts the frame while the game runs |
| AsteroidShooter.Game.HandleHit | src/hooks/useAsteroidGameLogic.ts:66-95 | a hit on the last life sets lives to 0 and game over; otherwise one life is lost, the ship is hidden and a respawn is pending |
| AsteroidShooter.Game.CheckLevelProgression | src/hooks/useAsteroidGameLogic.ts:186-202 | the level rises by 1 exactly when the score reaches level × POINTS_PER_LEVEL |
| AsteroidShooter.Game.SweepBullets | src/hooks/useAsteroidGameLogic.ts:369-434 | the bullets, asteroids and score become the bullet pass's; an unexposed ship is never reported hit |
| AsteroidShooter.Game.CheckCollisions | src/hooks/useAsteroidGameLogic.ts:362-478 | the whole pass: bullet resolution, at most one ship hit (explosion or contact, only when exposed), one life lost or game over, the level raised at most once; the score never decreases |
| AsteroidShooter.Game.MakeInvulnerable | src/hooks/useAsteroidGameLogic.ts:47-55 | the ship is invulnerable and the end-of-invulnerability event is pending |
| AsteroidShooter.Game.Respawn | src/hooks/useAsteroidGameLogic.ts:57-64 | the ship is recreated at the centre, visible and invulnerable; nothing else in the state changes |
| AsteroidShooter.Game.EndInvulnerability | src/hooks/useAsteroidGameLogic.ts:52-54 | invulnerability ends |
| AsteroidShooter.Game.Step | src/hooks/useAsteroidGameLoop.ts:36-39 | one frame's updates keep the invariant; the score never drops, the level rises by at most 1, at most one life is lost and at most one asteroid is created |
| AsteroidShooter.Game.Tick | src/hooks/useAsteroidGameLoop.ts:30-54 | a frame changes nothing unless started, not over and not paused; otherwise it has Step's bounds and fires no bullet |
| AsteroidFindings.SpeedFactors | src/hooks/useAsteroidGameLogic.ts:98-109 | a new asteroid's speed factors into its base speed × time multiplier × level multiplier |
| AsteroidFindings.FirstAsteroidAsWritten | src/hooks/useAsteroidGameLogic.ts:204-208 | as written, the first asteroid's speed uses the time since the previous start |
| AsteroidFindings.StartClockCounterexample | src/hooks/useAsteroidGameLogic.ts:204-208 | on a first game at clock 1.7e12 ms the first asteroid is 85000001 times its base speed |
| AsteroidFindings.StartClockSpeedsUp | src/hooks/useAsteroidGameLogic.ts:204-208 | any start after the previous one makes the first asteroid faster than its base speed |
| AsteroidFindings.FirstAsteroidAtBaseSpeed | src/hooks/useAsteroidGameLogic.ts:204-208 | corrected: the first asteroid flies exactly at its base speed |
| AsteroidFindings.SpawnedAsteroidAsWritten | src/hooks/useAsteroidGameLogic.ts:100 | as written, a spawned asteroid always gets the level-1 speed |
| AsteroidFindings.StaleLevelCounterexample | src/hooks/useAsteroidGameLogic.ts:100 | at level 3 with a 0.1 step the intended speed is 1.2 times the level-1 speed the code uses |
| AsteroidFindings.LevelSpeedsUp | src/hooks/useAsteroidGameLogic.ts:100 | corrected: a higher level always gives a strictly faster asteroid |
| FlappyLogic.CheckCollision | src/hooks/useGameLogic.ts:73-111 | true exactly when the bird hits the ground, the ceiling or some pipe; ground and ceiling always count; with no pipe overlapping it is false |
| FlappyLogic.SafeInsideGaps | src/hooks/useGameLogic.ts:87-110 | a bird inside the playfield and inside the gap of every overlapping pipe collides with nothing |
| FlappyLogic.PipeFromDraws | src/hooks/useGameLogic.ts:52-71 | a new pipe is at the right edge, not passed, with the counter's id, a gap in [120, 180) and a gap top in [80, GAP_TOP_MAX) |
| FlappyLogic.AppendPipeWellFormed | src/hooks/useGameLogic.ts:65 | a pipe numbered from the counter keeps pipe ids increasing |
| FlappyLogic.ScrollPipesMember | src/hooks/useGameLoop.ts:31-34 | a pipe survives the scroll exactly when, moved left by PIPE_SPEED, its right edge is still past 0; nothing else about it changes and nothing is added |
| FlappyLogic.ScrollPipesWellFormed | src/hooks/useGameLoop.ts:31-34 | the scroll keeps pipe ids increasing and below the counter |
| FlappyLogic.MarkPassed | src/hooks/useGameLoop.ts:43-53 | the scoring pass keeps every pipe in place, marking the newly passed ones |
| FlappyLogic.MarkPassedWellFormed | src/hooks/useGameLoop.ts:43-53 | marking keeps the pipe ids |
| FlappyLogic.ScorePipes | src/hooks/useGameLoop.ts:42-53 | the in-place `forEach` marks exactly the newly passed pipes and adds one point for each |
| FlappyLogic.ScoreIsFlagsSet | src/hooks/useGameLoop.ts:42-53 | the score rises by exactly the number of `passed` flags switched on |
| FlappyLogic.MarkPassedIdempotent | src/hooks/useGameLoop.ts:42-53 | a second pass scores nothing and changes nothing: each pipe is counted once |
| FlappyLogic.ScoredStaysPassed | src/hooks/useGameLoop.ts:31-53 | a pipe counted in one frame is still marked after the next scroll, so it is never counted again |
| FlappyLogic.BehindStaysBehind | src/hooks/useGameLoop.ts:33 | with pipes moving left, a pipe behind the bird stays behind it |
| Flappy.Spawned | src/hooks/useGameLoop.ts:31-39 | after the scroll, one pipe is appended exactly when none is left or the last is more than 300 in from the right edge; the list grows by at most one and is never empty |
| Flappy.SpawnedWellFormed | src/hooks/useGameLoop.ts:31-53 | a frame's pipe list keeps increasing ids below the moved counter |
| Flappy.Moved | src/hooks/useGameLoop.ts:28-29 | the bird moves by its velocity and gravity adds to the velocity, the flags stay, the score never falls and the pipe list keeps its length |
| Flappy.MoveAndScore | src/hooks/useGameLoop.ts:42-61 | the in-place scoring loop over the frame's pipes and the new bird values give exactly `Moved` |
| Flappy.Advanced | src/hooks/useGameLoop.ts:27-61 | a running frame keeps the flags, moves the bird by its velocity and adds GRAVITY to the velocity, never lowers the score and adds at most one pipe |
| Flappy.AdvancedConsistent | src/hooks/useGameLoop.ts:27-61 | a running frame keeps the state consistent (fresh increasing pipe ids, non-negative score, over only after started), with the counter moved past the pipe drawn |
| Flappy.FlappyGame.constructor | src/hooks/useGameLogic.ts:8-19 | the game starts not started, score 0, bird at 300 with velocity 0, no pipes, instructions shown, pipe counter 0 |
| Flappy.FlappyGame.Jump | src/hooks/useGameLogic.ts:21-37 | after game over nothing changes; before the start it only starts the game and hides the instructions; while running it sets the velocity to JUMP_STRENGTH |
| Flappy.FlappyGame.ResetGame | src/hooks/useGameLogic.ts:39-50 | the initial state and the pipe counter back at 0 |
| Flappy.FlappyGame.GeneratePipe | src/hooks/useGameLogic.ts:52-71 | the pipe drawn takes the counter's id and the counter advances by 1 |
| Flappy.FlappyGame.Tick | src/hooks/useGameLoop.ts:23-62 | nothing changes unless started and not over; otherwise the state becomes the running frame `Advanced` and the counter moves by the pipes drawn; the state stays consistent and the score never decreases |
| Flappy.FlappyGame.Advance | src/hooks/useGameLoop.ts:27-61 | a running frame's updates in the hook's order (pipes spawned with the counter, then the bird and the score): the new state is `Advanced` of the old one, the counter moves by the pipes drawn, and the state stays consistent |
| Flappy.FlappyGame.SpawnPipes | src/hooks/useGameLoop.ts:31-39 | the scrolled list, with a pipe drawn from the counter when the screen calls for one; the counter moves by exactly the pipes drawn |
| Flappy.FlappyGame.CollisionEffect | src/hooks/useGameLoop.ts:77-83 | in a running game a detected collision sets game over and nothing else; otherwise nothing changes |

## Left out

- Trigonometry and `sqrt`: the ship's rotation-to-thrust vector, friction and speed clamp, the bullet direction and the asteroid's random heading are inputs (a `velocity` or `heading` parameter). Distance tests compare squared distances.
- `Math.random()` and `Date.now()` are parameters (`AsteroidDraws`, `SparkDraw`, `TrailDraw`, `r1`/`r2`, `now`).
- Floating-point rounding: all quantities are exact reals.
- `toast` and `console.log` have no effect on state.
- `requestAnimationFrame` scheduling and its cancellation are left out. Only the guarded body of one frame is modelled.
- The `setTimeout` timers are explicit events. Their 1000 ms and 2000 ms delays, and their running on during a pause, are not modelled.
- POINTS_PER_LEVEL and SPEED_INCREASE_PER_LEVEL are read but not defined in the constants file; in JavaScript they are `undefined`. The model takes them as positive parameters of `Game`.
- The Flappy Bird constants file is not part of this model, so GRAVITY, JUMP_STRENGTH, PIPE_SPEED, PIPE_WIDTH, PIPE_GAP, BIRD_SIZE and the game and ground sizes are fields of `FlappyLogic.Config`.
- The Flappy `Pipe` type declares no `gapSize`, but `generatePipe` adds one. The model gives every pipe a `gapSize` and reads 0 as absent, as `||` does.
- Explosion particles from collisions are left out. The loop hook calls `checkCollisions()` with no argument (src/hooks/useAsteroidGameLoop.ts:39), so its optional explosion callback is never given and no explosion is ever made. `ParticleSystem.CreateExplosion` is modelled on its own.
- Power-ups, shields, weapon types, lasers, gravity wells and dropped items are declared in the types, but no hook logic updates them.
- The fire-cooldown and rotation parts of `updateSpaceship` are modelled; its thrust, friction and clamp arithmetic is not (see the first line).
- React StrictMode, which can run state updaters twice, is not modelled. Updaters run once, in queue order.
- AsteroidShooter.Game.Tick: states the frame's bounds, not its exact final state. The exact state is stated by the four methods it calls.
- AsteroidShooter.Game.Tick: the particle steps it runs after the collision check (aging, the thrust trail and the bullet trails, src/hooks/useAsteroidGameLoop.ts:40-54) never run in the shipped game. The shooter's component (src/components/AsteroidGame.tsx:30-38) passes none of `updateParticles`, `createExplosion` or `createTrail` to the loop hook. So the call to `updateParticles` at line 40 throws on the first frame, right after `checkCollisions()`. No particle ages, no trail is made, and line 56 never schedules the next frame. The model follows the hook as written, with the three callbacks supplied.
- AsteroidShooter.Game.Step: states bounds only, as for Tick.
- FlappyLogic.PipeFromDraws: bounds the gap top only when the playfield leaves room for it (GAP_TOP_MAX above 80); in a smaller field the code's draw lies outside [80, GAP_TOP_MAX) and the model says nothing about it.

Where the written design and the code differ, the model follows the code:

- The code does not cap the time and level speed multipliers.
- `startGame` runs from any state, not only before the first start.
- The asteroid kind is drawn uniformly from four kinds. No kind waits for a level.
- Respawn and invulnerability use wall-clock timers, not frame counts.

## Findings

| source | as written | input that shows it | evidently intended | confidence | as-written member | corrected member |
|---|---|---|---|---|---|---|
| src/hooks/useAsteroidGameLogic.ts:207-208 | `startGame` creates the first asteroid before resetting the start time, so its time multiplier uses the time since the previous start (or since the epoch on the first game) | once SPEED_INCREASE_PER_LEVEL is defined (as shipped it is `undefined` and every speed is NaN): first game, clock at 1.7e12 ms, and the first asteroid flies 85000001 times its base speed | the first asteroid has zero play time and flies at its base speed | not executed | AsteroidFindings.StartClockCounterexample | AsteroidFindings.FirstAsteroidAtBaseSpeed |
| src/hooks/useAsteroidGameLogic.ts:100 | `spawnAsteroid` is memoised with no dependencies, so the `createAsteroid` it calls reads the first render's level, which is 1; the per-level speed increase never applies to spawned asteroids | once POINTS_PER_LEVEL and SPEED_INCREASE_PER_LEVEL are defined (as shipped the level test is always false and the level stays 1): at level 3 with a 0.1 increase per level, the asteroid flies at the level-1 speed instead of 1.2 times it | spawned asteroids speed up with the current level | not executed | AsteroidFindings.StaleLevelCounterexample | AsteroidFindings.LevelSpeedsUp |

`AsteroidShooter.Game.Start` and `AsteroidShooter.Game.SpawnAsteroid` use the corrected behaviour: the start time is recorded first, and the current level is used.
