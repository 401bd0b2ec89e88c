/** Components the gameplay attaches to entities, and the game's constants:
    the fixed time step, the base speed and the sizes of the bullet and enemy
    hit boxes. */
module Components {

  import opened Timers
  import opened Assets

  /** Seconds per movement step and units per second at speed 1. */
  const TimeStep: real := 1.0 / 60.0
  const BaseSpeed: real := 500.0

  datatype Vec2 = Vec2(x: real, y: real)
  datatype Vec3 = Vec3(x: real, y: real, z: real)

  /** Full width and height of the bullet and the enemy hit boxes. */
  const BulletScale: Vec2 := Vec2(5.0, 10.0)
  const EnemyScale: Vec2 := Vec2(70.0, 50.0)

  function Splat(v: real): Vec3 {
    Vec3(v, v, v)
  }

  function Plus(a: Vec3, b: Vec3): Vec3 {
    Vec3(a.x + b.x, a.y + b.y, a.z + b.z)
  }

  /** Drop the draw-order coordinate. */
  function Truncate(v: Vec3): Vec2 {
    Vec2(v.x, v.y)
  }

  datatype Transform = Transform(translation: Vec3, scale: Vec3)

  function FromXyz(x: real, y: real, z: real): Transform {
    Transform(Vec3(x, y, z), Splat(1.0))
  }

  /** The three mutually exclusive role markers. */
  datatype Role = Player | Enemy | Bullet

  datatype Velocity = Velocity(x: real, y: real)

  /** Marks an entity as moved each step; `autoDespawn` removes it once it
      leaves the band around the screen. */
  datatype Movable = Movable(autoDespawn: bool)

  datatype ExplosionColor = Blue | Red

  /** A request for an explosion: where, which colour, growth rate and
      alpha decay factor. */
  datatype ExplosionToSpawn = ExplosionToSpawn(at: Vec3, color: ExplosionColor, growth: real, decay: real)

  /** Per-step growth of the scale and decay factor of the alpha. */
  datatype ExplosionAnimationTime = ExplosionAnimationTime(growth: real, decay: real)

  /** The explosion timer starts as a one-shot timer of one second. */
  function DefaultExplosionTimer(): (t: Timer)
    ensures t.Valid() && t.mode == Once && t.duration == 1.0
    ensures t.elapsed == 0.0 && !t.finished
  {
    FromSeconds(1.0, Once)
  }

  /** The enemy spawn timer repeats every two seconds. */
  function DefaultEnemySpawnTimer(): (t: Timer)
    ensures t.Valid() && t.mode == Repeating && t.duration == 2.0
    ensures t.elapsed == 0.0 && !t.JustFinished()
  {
    FromSeconds(2.0, Repeating)
  }

  /** Window size in logical units. */
  datatype WinSize = WinSize(w: real, h: real)

  type MeshHandle = nat

  /** Mesh handles created once at start-up, by role. */
  datatype GameShapes = GameShapes(
    playerBody: MeshHandle,
    playerWing: MeshHandle,
    playerTail: MeshHandle,
    playerBaseGun: MeshHandle,
    playerBaseGunInside: MeshHandle,
    playerGun: MeshHandle,
    playerBullet: MeshHandle,
    enemyBody: MeshHandle,
    enemyBack: MeshHandle,
    enemyIpon: MeshHandle,
    enemyEye: MeshHandle,
    enemyEyeInside: MeshHandle,
    explosionRing: MeshHandle)

  /** Material handles created once at start-up, by role. */
  datatype GameColors = GameColors(
    playerBody: MaterialHandle,
    playerLight: MaterialHandle,
    playerLightGreen: MaterialHandle,
    playerBullet: MaterialHandle,
    enemyBody: MaterialHandle,
    enemyLight: MaterialHandle,
    enemyEye: MaterialHandle,
    enemyEyeInside: MaterialHandle,
    explosionRing: MaterialHandle)
}
