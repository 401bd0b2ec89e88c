/** Enemies: a repeating two-second timer drops a new enemy at a random
    column above the top edge of the window. */
module EnemySystems {

  import opened Options
  import opened Timers
  import opened Assets
  import opened Components
  import opened World
  import opened Systems

  /** The enemy's body: an enemy drifting down at a fifth of the base speed,
      removed once it leaves the band, 100 units above the top edge. */
  function EnemyBundle(x: real, win: WinSize, shapes: GameShapes, colors: GameColors): (b: Bundle)
    ensures b.role == Some(Enemy)
    ensures b.velocity == Some(Velocity(0.0, -0.2))
    ensures b.movable == Some(Movable(true))
    ensures b.transform == FromXyz(x, win.h / 2.0 + 100.0, -0.5)
    ensures b.mesh == Some(shapes.enemyBody) && b.material == Some(colors.enemyBody)
    ensures !b.explosion && b.request.None?
  {
    Sprite(shapes.enemyBody, colors.enemyBody, FromXyz(x, win.h / 2.0 + 100.0, -0.5))
      .(role := Some(Enemy), velocity := Some(Velocity(0.0, -0.2)), movable := Some(Movable(true)))
  }

  /** The five decorative parts attached to an enemy: back, left and right
      side lights, eye and inside of the eye, in that order. */
  function EnemyParts(shapes: GameShapes, colors: GameColors): (parts: seq<Bundle>)
    ensures |parts| == 5
    ensures forall k :: 0 <= k < |parts| ==>
      && Inert(parts[k]) && !parts[k].explosion && parts[k].request.None?
      && parts[k].mesh.Some? && parts[k].material.Some?
      && parts[k].transform.scale == Splat(1.0)
    ensures parts[1].transform.translation.x == -parts[2].transform.translation.x == -35.0
  {
    [ Sprite(shapes.enemyBack, colors.enemyBody, FromXyz(0.0, 0.0, -0.1)),
      Sprite(shapes.enemyIpon, colors.enemyLight, FromXyz(-35.0, 0.0, 0.1)),
      Sprite(shapes.enemyIpon, colors.enemyLight, FromXyz(35.0, 0.0, 0.1)),
      Sprite(shapes.enemyEye, colors.enemyEye, FromXyz(0.0, 0.0, 0.1)),
      Sprite(shapes.enemyEyeInside, colors.enemyEyeInside, FromXyz(0.0, -10.0, 0.2)) ]
  }

  /** The columns an enemy may appear in: between the walls, the right wall
      excluded. */
  predicate SpawnColumn(x: real, win: WinSize) {
    WallLeft(win) <= x < WallRight(win)
  }

  /** The spawn timer resource. */
  class EnemySpawnTimer {
    var timer: Timer

    ghost predicate Valid()
      reads this
    {
      timer.Valid() && timer.mode == Repeating && timer.duration == 2.0
    }

    constructor ()
      ensures Valid() && timer == DefaultEnemySpawnTimer()
    {
      timer := DefaultEnemySpawnTimer();
    }

    /** Advances the timer by the frame's `delta` seconds and, on a frame in
        which a period ends, queues one enemy at column `x`, the random draw
        of that frame. */
    method SpawnEnemySystem(delta: real, x: real, win: WinSize, shapes: GameShapes, colors: GameColors)
      returns (cmds: seq<Command>)
      requires Valid() && delta >= 0.0
      requires timer.elapsed + delta >= 2.0 ==> SpawnColumn(x, win)
      modifies this
      ensures Valid() && timer == Tick(old(timer), delta)
      ensures old(timer.elapsed) + delta < 2.0 ==> cmds == []
      ensures old(timer.elapsed) + delta >= 2.0 ==>
        cmds == [Spawn(EnemyBundle(x, win, shapes, colors), EnemyParts(shapes, colors))]
    {
      timer := Tick(timer, delta);
      cmds := [];
      if timer.JustFinished() {
        var enemy := Sprite(shapes.enemyBody, colors.enemyBody, FromXyz(0.0, 0.0, 0.0));
        enemy := enemy.(role := Some(Enemy));
        enemy := enemy.(velocity := Some(Velocity(0.0, -0.2)));
        enemy := enemy.(movable := Some(Movable(true)));
        var back := Sprite(shapes.enemyBack, colors.enemyBody, FromXyz(0.0, 0.0, -0.1));
        var offset := 35.0;
        var iponLeft := Sprite(shapes.enemyIpon, colors.enemyLight, FromXyz(-offset, 0.0, 0.1));
        var iponRight := Sprite(shapes.enemyIpon, colors.enemyLight, FromXyz(offset, 0.0, 0.1));
        var eye := Sprite(shapes.enemyEye, colors.enemyEye, FromXyz(0.0, 0.0, 0.1));
        var eyeInside := Sprite(shapes.enemyEyeInside, colors.enemyEyeInside, FromXyz(0.0, -10.0, 0.2));
        enemy := enemy.(transform := FromXyz(x, win.h / 2.0 + 100.0, -0.5));
        cmds := [Spawn(enemy, [back, iponLeft, iponRight, eye, eyeInside])];
      }
    }
  }

  /** A new enemy appears between the walls, is not removed by the step
      that follows its spawn, and sinks 5/3 units per step in its column. */
  lemma FreshEnemyInPlay(id: EntityId, x: real, win: WinSize, shapes: GameShapes, colors: GameColors)
    requires SpawnColumn(x, win) && win.h >= 0.0
    ensures var e := Entity(id, EnemyBundle(x, win, shapes, colors));
      var q := Moved(e, win).parts.transform.translation;
      && IsEnemy(e)
      && q.x == x && WallLeft(win) <= q.x < WallRight(win)
      && q.y == win.h / 2.0 + 100.0 - 5.0 / 3.0
      && !DespawnedByMovement(e, win)
  {
  }

  /** The number of periods the timer completes over the frames `deltas`. */
  function Periods(t: Timer, deltas: seq<real>): nat
    requires t.Valid() && NonNegative(deltas)
  {
    if deltas == [] then 0
    else
      assert NonNegative(deltas[..|deltas| - 1]);
      Periods(t, deltas[..|deltas| - 1]) + Tick(TickAll(t, deltas[..|deltas| - 1]), deltas[|deltas| - 1]).timesFinishedThisTick
  }

  /** The repeating spawn timer loses no time: what it holds plus two
      seconds per completed period is all the time fed to it. */
  lemma {:induction false} SpawnTimerAccounts(t: Timer, deltas: seq<real>)
    requires t.Valid() && t.mode == Repeating && t.duration == 2.0 && NonNegative(deltas)
    ensures TickAll(t, deltas).elapsed + 2.0 * (Periods(t, deltas) as real) == t.elapsed + Sum(deltas)
  {
    if deltas != [] {
      var init := deltas[..|deltas| - 1];
      var last := deltas[|deltas| - 1];
      assert NonNegative(init);
      SpawnTimerAccounts(t, init);
      var before := TickAll(t, init);
      var after := Tick(before, last);
      RepeatingTickAccounts(before, last, after);
      assert TickAll(t, deltas) == after;
    }
  }
}
