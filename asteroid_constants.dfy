/** The asteroid shooter's tuning table (`GAME_CONSTANTS`): playfield size,
    ship, bullet and asteroid parameters, the per-kind table and the scoring
    table. The two progression constants the game logic reads but the table
    does not define are parameters of the game class instead. */
module AsteroidConstants {

  const CANVAS_WIDTH: real := 800.0
  const CANVAS_HEIGHT: real := 600.0

  const SPACESHIP_SIZE: real := 20.0
  /** Radians the ship turns per frame while a turn key is held. */
  const SPACESHIP_ROTATION_SPEED: real := 0.15

  const BULLET_SPEED: real := 10.0
  /** Frames a bullet lives. */
  const BULLET_LIFESPAN: int := 60
  const MAX_BULLETS: int := 20

  /** Frames between two shots, set by `shoot`. */
  const FIRE_COOLDOWN: int := 8

  const INITIAL_LIVES: int := 3

  const BASE_ASTEROIDS: int := 4
  const ASTEROIDS_PER_LEVEL: int := 2
  const MAX_ASTEROIDS: int := 12

  const WRAP_MARGIN: real := 50.0
  const EXPLOSION_RADIUS: real := 100.0

  /** Spawn pacing used by `spawnAsteroid`, in frames. */
  const BASE_SPAWN_RATE: real := 180.0
  const MIN_SPAWN_RATE: real := 20.0

  datatype Size = Large | Medium | Small

  /** The four kinds of `ASTEROID_TYPES`. */
  datatype Kind = Normal | Fast | Armored | Explosive

  /** `ASTEROID_SIZES`: the drawn diameter in pixels. */
  function Diameter(s: Size): (d: real)
    ensures d > 0.0
  {
    match s
    case Large => 40.0
    case Medium => 25.0
    case Small => 15.0
  }

  /** `ASTEROID_SPEEDS[size].min`. */
  function MinSpeed(s: Size): real
  {
    match s
    case Large => 0.2
    case Medium => 0.3
    case Small => 0.5
  }

  /** `ASTEROID_SPEEDS[size].max`. */
  function MaxSpeed(s: Size): (v: real)
    ensures v > MinSpeed(s) > 0.0
  {
    match s
    case Large => 0.5
    case Medium => 0.8
    case Small => 1.2
  }

  /** `ASTEROID_TYPES[kind].health`. */
  function KindHealth(k: Kind): (h: int)
    ensures h >= 1
  {
    match k
    case Armored => 3
    case _ => 1
  }

  /** `ASTEROID_TYPES[kind].speedMultiplier`. */
  function KindSpeed(k: Kind): (v: real)
    ensures v > 0.0
  {
    match k
    case Normal => 1.0
    case Fast => 1.5
    case Armored => 0.7
    case Explosive => 1.1
  }

  /** `ASTEROID_TYPES[kind].points`. */
  function KindPoints(k: Kind): (p: int)
    ensures p >= 1
  {
    match k
    case Normal => 1
    case Fast => 2
    case Armored => 3
    case Explosive => 2
  }

  /** `POINTS[size]`. */
  function SizePoints(s: Size): (p: int)
    ensures p >= 20
  {
    match s
    case Large => 20
    case Medium => 50
    case Small => 100
  }
}
