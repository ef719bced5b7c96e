/** The records the game's state machine works on: a level ("planet") with its
    physics modifiers and theme, the artifact a planet may carry, and the
    game state itself. Numbers the game keeps as JavaScript numbers (score,
    warp charge, multiplier, physics values) are `real`; lives are counted
    in whole units and are `int`. */
module GameTypes {

  datatype Option<T> = None | Some(value: T)

  /** A point or vector of the 3D scene, as the `[x, y, z]` triples the
      scene passes to the physics engine. */
  datatype Vec3 = Vec3(x: real, y: real, z: real)

  /** Points of score that fill the warp charge from 0 to 100. */
  const WARP_THRESHOLD: real := 500.0

  /** The largest number of lives a successful warp can bring the player to. */
  const MAX_LIVES: int := 5

  datatype PhysicsModifiers = PhysicsModifiers(
    gravity: real,
    friction: real,
    restitution: real,
    slope: real)

  /** Cosmetic only: carried through, never interpreted by the rules. */
  datatype VisualTheme = VisualTheme(
    primaryColor: string,
    secondaryColor: string,
    floorColor: string,
    ambientIntensity: real,
    neonColor: string)

  datatype EffectType = ScoreMultiplier | ExtraLife | WarpChargeBoost

  datatype Upgrade = Upgrade(
    name: string,
    description: string,
    icon: string,
    effectType: EffectType)

  datatype Planet = Planet(
    id: string,
    name: string,
    description: string,
    physics: PhysicsModifiers,
    theme: VisualTheme,
    crewMessage: string,
    bossName: Option<string>,
    artifact: Option<Upgrade>)

  datatype GameStatus = Menu | Playing | Warping | GameOver | KeySelection

  datatype GameState = GameState(
    status: GameStatus,
    score: real,
    highScore: real,
    currentPlanet: Planet,
    warpReady: bool,
    lives: int,
    warpCharge: real,
    artifacts: seq<Upgrade>,
    scoreMultiplier: real,
    performanceReview: Option<string>)

  function Min(a: real, b: real): (m: real)
    ensures m <= a && m <= b
    ensures m == a || m == b
  {
    if a <= b then a else b
  }

  function MinInt(a: int, b: int): (m: int)
    ensures m <= a && m <= b
    ensures m == a || m == b
  {
    if a <= b then a else b
  }
}
