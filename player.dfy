/** The player's ship: how it is spawned, steered with the arrow keys and
    how it fires bullets with the space bar. */
module PlayerSystems {

  import opened Options
  import opened Assets
  import opened Components
  import opened World
  import opened Systems

  // ---------------------------------------------------------------------
  // Spawning the player
  // ---------------------------------------------------------------------

  /** The player's body: a steerable, never auto-removed ship standing still
      100 units above the bottom edge of the window. */
  function PlayerBundle(win: WinSize, shapes: GameShapes, colors: GameColors): (b: Bundle)
    ensures b.role == Some(Player)
    ensures b.velocity == Some(Velocity(0.0, 0.0))
    ensures b.movable == Some(Movable(false))
    ensures b.transform == FromXyz(0.0, -(win.h / 2.0) + 100.0, 0.0)
    ensures b.mesh == Some(shapes.playerBody) && b.material == Some(colors.playerBody)
    ensures !b.explosion && b.request.None? && b.explosionTimer.None? && b.animation.None?
  {
    Sprite(shapes.playerBody, colors.playerBody, FromXyz(0.0, -(win.h / 2.0) + 100.0, 0.0))
      .(role := Some(Player), velocity := Some(Velocity(0.0, 0.0)), movable := Some(Movable(false)))
  }

  /** The five decorative parts attached to the player: wing, tail, gun
      base, inside of the gun base and gun, in that order. */
  function PlayerParts(shapes: GameShapes, colors: GameColors): (parts: seq<Bundle>)
    ensures |parts| == 5
    ensures forall k :: 0 <= k < |parts| ==>
      && Inert(parts[k]) && !parts[k].explosion && parts[k].request.None?
      && parts[k].mesh.Some? && parts[k].material.Some?
      && parts[k].transform.scale == Splat(1.0)
      && parts[k].transform.translation.x == 0.0
  {
    [ Sprite(shapes.playerWing, colors.playerLight, FromXyz(0.0, -25.0, -0.1)),
      Sprite(shapes.playerTail, colors.playerLight, FromXyz(0.0, 0.0, -0.1)),
      Sprite(shapes.playerBaseGun, colors.playerLightGreen, FromXyz(0.0, 10.0, 0.2)),
      Sprite(shapes.playerBaseGunInside, colors.enemyBody, FromXyz(0.0, 10.0, 0.3)),
      Sprite(shapes.playerGun, colors.playerBullet, FromXyz(0.0, 0.0, 0.1)) ]
  }

  /** Queues the spawn of the player's ship with its parts. */
  method SpawnPlayerSystem(win: WinSize, shapes: GameShapes, colors: GameColors) returns (cmds: seq<Command>)
    ensures |cmds| == 1 && cmds[0].Spawn?
    ensures cmds[0].bundle == PlayerBundle(win, shapes, colors)
    ensures cmds[0].children == PlayerParts(shapes, colors)
  {
    var player := Sprite(shapes.playerBody, colors.playerBody, FromXyz(0.0, 0.0, 0.0));
    player := player.(role := Some(Player));
    player := player.(velocity := Some(Velocity(0.0, 0.0)));
    player := player.(movable := Some(Movable(false)));
    var wing := Sprite(shapes.playerWing, colors.playerLight, FromXyz(0.0, -25.0, -0.1));
    var tail := Sprite(shapes.playerTail, colors.playerLight, FromXyz(0.0, 0.0, -0.1));
    var baseGun := Sprite(shapes.playerBaseGun, colors.playerLightGreen, FromXyz(0.0, 10.0, 0.2));
    var baseGunInside := Sprite(shapes.playerBaseGunInside, colors.enemyBody, FromXyz(0.0, 10.0, 0.3));
    var gun := Sprite(shapes.playerGun, colors.playerBullet, FromXyz(0.0, 0.0, 0.1));
    player := player.(transform := FromXyz(0.0, -win.h / 2.0 + 100.0, 0.0));
    cmds := [Spawn(player, [wing, tail, baseGun, baseGunInside, gun])];
  }

  /** The player is never removed by the movement step, and on a window at
      least 100 units wide it never leaves the space between the walls. */
  lemma PlayerStaysInPlay(e: Entity, win: WinSize)
    requires HasRole(e, Player) && e.parts.movable == Some(Movable(false))
    ensures !DespawnedByMovement(e, win)
    ensures Moves(e) && win.w >= 100.0 ==>
      WallLeft(win) <= Moved(e, win).parts.transform.translation.x <= WallRight(win)
  {
  }

  /** The spawned player stands between the walls, and a step without
      steering leaves it where it is. */
  lemma SpawnedPlayerAtRest(id: EntityId, win: WinSize, shapes: GameShapes, colors: GameColors)
    requires win.w >= 100.0
    ensures var e := Entity(id, PlayerBundle(win, shapes, colors));
      && WallLeft(win) <= e.parts.transform.translation.x <= WallRight(win)
      && Moved(e, win) == e
      && !DespawnedByMovement(e, win)
  {
  }

  // ---------------------------------------------------------------------
  // Steering
  // ---------------------------------------------------------------------

  /** The keyboard query: the player's velocity. */
  predicate Steerable(e: Entity) {
    HasRole(e, Player) && e.parts.velocity.Some?
  }

  /** Horizontal speed chosen by the arrow keys; left wins over right. */
  function KeyVelocityX(left: bool, right: bool): (x: real)
    ensures left ==> x == -1.0
    ensures !left && right ==> x == 1.0
    ensures !left && !right ==> x == 0.0
  {
    if left then -1.0 else if right then 1.0 else 0.0
  }

  /** The store after the arrow keys are read: when exactly one entity is a
      steerable player, its horizontal speed is set from the keys; nothing
      else changes, and with no player or several nothing changes at all. */
  function Steered(s: seq<Entity>, left: bool, right: bool): (r: seq<Entity>)
    ensures |r| == |s|
    ensures forall i :: 0 <= i < |s| ==>
      && r[i].id == s[i].id
      && r[i].parts == s[i].parts.(velocity := r[i].parts.velocity)
      && Steerable(r[i]) == Steerable(s[i])
    ensures Single(s, Steerable).None? ==> r == s
    ensures Single(s, Steerable).Some? ==>
      var p := Single(s, Steerable).value;
      && Steerable(s[p])
      && r[p].parts.velocity == Some(Velocity(KeyVelocityX(left, right), s[p].parts.velocity.value.y))
      && forall i :: 0 <= i < |s| && i != p ==> r[i] == s[i]
  {
    match Single(s, Steerable)
    case None => s
    case Some(p) =>
      var v := s[p].parts.velocity.value;
      s[p := s[p].(parts := s[p].parts.(velocity := Some(v.(x := KeyVelocityX(left, right)))))]
  }

  /** Reading the same keys twice in a frame has the effect of reading them
      once: the player's speed is set, not accumulated. */
  lemma SteeringIdempotent(s: seq<Entity>, left: bool, right: bool)
    ensures Steered(Steered(s, left, right), left, right) == Steered(s, left, right)
  {
  }

  /** Sets the player's horizontal speed from the arrow keys, when there is
      exactly one player. */
  method PlayerKeyboardEventSystem(world: array<Entity>, left: bool, right: bool)
    modifies world
    ensures world[..] == Steered(old(world[..]), left, right)
  {
    var single := Single(world[..], Steerable);
    if single.Some? {
      var i := single.value;
      var e := world[i];
      var velocity := e.parts.velocity.value;
      velocity := velocity.(x := if left then -1.0 else if right then 1.0 else 0.0);
      world[i] := e.(parts := e.parts.(velocity := Some(velocity)));
    }
  }

  // ---------------------------------------------------------------------
  // Firing
  // ---------------------------------------------------------------------

  predicate IsPlayer(e: Entity) {
    HasRole(e, Player)
  }

  /** A bullet fired from `at`: 35 units above it, behind the ship, moving
      straight up and removed once it leaves the band. */
  function BulletBundle(at: Vec3, shapes: GameShapes, colors: GameColors): (b: Bundle)
    ensures b.role == Some(Bullet)
    ensures b.transform == FromXyz(at.x, at.y + 35.0, -0.1)
    ensures b.velocity == Some(Velocity(0.0, 1.0))
    ensures b.movable == Some(Movable(true))
    ensures b.mesh == Some(shapes.playerBullet) && b.material == Some(colors.playerBullet)
    ensures !b.explosion && b.request.None?
  {
    Sprite(shapes.playerBullet, colors.playerBullet, FromXyz(at.x, at.y + 35.0, -0.1))
      .(role := Some(Bullet), velocity := Some(Velocity(0.0, 1.0)), movable := Some(Movable(true)))
  }

  /** Fires one bullet from the player's position when the space bar was
      pressed in this frame and there is exactly one player. */
  method PlayerFireSystem(world: seq<Entity>, spaceJustPressed: bool, shapes: GameShapes, colors: GameColors)
    returns (cmds: seq<Command>)
    ensures |cmds| <= 1
    ensures |cmds| == 1 <==> spaceJustPressed && Single(world, IsPlayer).Some?
    ensures |cmds| == 1 ==>
      var player := world[Single(world, IsPlayer).value];
      cmds[0] == Spawn(BulletBundle(player.parts.transform.translation, shapes, colors), [])
  {
    cmds := [];
    var single := Single(world, IsPlayer);
    if single.Some? {
      var transform := world[single.value].parts.transform;
      if spaceJustPressed {
        var bullet := Sprite(shapes.playerBullet, colors.playerBullet,
                             FromXyz(transform.translation.x, transform.translation.y + 35.0, -0.1));
        bullet := bullet.(role := Some(Bullet));
        bullet := bullet.(velocity := Some(Velocity(0.0, 1.0)));
        bullet := bullet.(movable := Some(Movable(true)));
        cmds := [Spawn(bullet, [])];
      }
    }
  }

  /** A fired bullet takes part in the hit test, keeps its column and climbs
      25/3 units per step. */
  lemma BulletClimbs(id: EntityId, at: Vec3, win: WinSize, shapes: GameShapes, colors: GameColors)
    ensures var e := Entity(id, BulletBundle(at, shapes, colors));
      var q := Moved(e, win).parts.transform.translation;
      && IsBullet(e) && Moves(e)
      && q.x == at.x && q.y == at.y + 35.0 + 25.0 / 3.0
  {
  }
}
