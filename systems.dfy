/** The four per-step gameplay systems: movement, bullet/enemy hit test,
    explosion spawning and explosion animation.  Each reads the store, writes
    only the components it owns in place, and queues the rest as commands. */
module Systems {

  import opened Options
  import opened Timers
  import opened Assets
  import opened Components
  import opened World

  // ---------------------------------------------------------------------
  // Movement
  // ---------------------------------------------------------------------

  /** The movement query: entities with a velocity and a movement marker. */
  predicate Moves(e: Entity) {
    e.parts.velocity.Some? && e.parts.movable.Some?
  }

  /** Distance covered in one step at speed 1. */
  const StepDistance: real := TimeStep * BaseSpeed

  function WallLeft(win: WinSize): real {
    -(win.w / 2.0) + 50.0
  }

  function WallRight(win: WinSize): real {
    win.w / 2.0 - 50.0
  }

  /** Horizontal position of the player after it is held between the walls. */
  function ClampX(x: real, win: WinSize): (r: real)
    ensures win.w >= 100.0 ==> WallLeft(win) <= r <= WallRight(win)
    ensures WallLeft(win) < x < WallRight(win) ==> r == x
    ensures x <= WallLeft(win) ==> r == WallLeft(win)
    ensures WallLeft(win) < x && x >= WallRight(win) ==> r == WallRight(win)
  {
    if x <= WallLeft(win) then WallLeft(win)
    else if x >= WallRight(win) then WallRight(win)
    else x
  }

  /** Outside the band of 300 units above and below the screen (strictly). */
  predicate OutOfBand(y: real, win: WinSize) {
    y < -(win.h / 2.0) - 300.0 || y > win.h / 2.0 + 300.0
  }

  /** An entity after one movement step. */
  function Moved(e: Entity, win: WinSize): (r: Entity)
    ensures r.id == e.id
    ensures r.parts == e.parts.(transform := r.parts.transform)
    ensures r.parts.transform.scale == e.parts.transform.scale
    ensures !Moves(e) ==> r == e
    ensures Moves(e) ==>
      var p := e.parts.transform.translation;
      var v := e.parts.velocity.value;
      var q := r.parts.transform.translation;
      && q.y == p.y + v.y * 25.0 / 3.0
      && q.z == p.z
      && (e.parts.role != Some(Player) ==> q.x == p.x + v.x * 25.0 / 3.0)
      && (e.parts.role == Some(Player) ==> q.x == ClampX(p.x + v.x * 25.0 / 3.0, win))
  {
    if !Moves(e) then e
    else
      var p := e.parts.transform.translation;
      var v := e.parts.velocity.value;
      assert v.x * StepDistance == v.x * 25.0 / 3.0 && v.y * StepDistance == v.y * 25.0 / 3.0;
      var q := Vec3(p.x + v.x * StepDistance, p.y + v.y * StepDistance, p.z);
      var q' := if e.parts.role == Some(Player) then q.(x := ClampX(q.x, win)) else q;
      e.(parts := e.parts.(transform := e.parts.transform.(translation := q')))
  }

  /** The movement step removes an auto-despawn entity whose new position is
      out of the band. */
  predicate DespawnedByMovement(e: Entity, win: WinSize) {
    Moves(e) && e.parts.movable.value.autoDespawn
    && OutOfBand(Moved(e, win).parts.transform.translation.y, win)
  }

  function MovementCommand(e: Entity, win: WinSize): seq<Command> {
    if DespawnedByMovement(e, win) then [Despawn(e.id, true)] else []
  }

  /** Commands the movement step queues for the entities `s`, in order. */
  function MovementCommands(s: seq<Entity>, win: WinSize): seq<Command> {
    if s == [] then []
    else MovementCommands(s[..|s| - 1], win) + MovementCommand(s[|s| - 1], win)
  }

  /** One turn of the movement loop: the entity's new state and the removal
      it queues, if any. */
  method MoveEntity(e: Entity, win: WinSize) returns (moved: Entity, despawn: seq<Command>)
    ensures moved == Moved(e, win) && despawn == MovementCommand(e, win)
  {
    moved := e;
    despawn := [];
    if e.parts.velocity.Some? && e.parts.movable.Some? {
      var velocity := e.parts.velocity.value;
      var translation := e.parts.transform.translation;
      translation := translation.(x := translation.x + velocity.x * TimeStep * BaseSpeed);
      translation := translation.(y := translation.y + velocity.y * TimeStep * BaseSpeed);

      var winWidthHalf := win.w / 2.0;
      var winHeightHalf := win.h / 2.0;

      if e.parts.role == Some(Player) {
        var wallLeft := -winWidthHalf + 50.0;
        var wallRight := winWidthHalf - 50.0;
        translation := translation.(x :=
          if translation.x <= wallLeft then wallLeft
          else if translation.x >= wallRight then wallRight
          else translation.x);
      }
      moved := e.(parts := e.parts.(transform := e.parts.transform.(translation := translation)));

      if e.parts.movable.value.autoDespawn {
        if translation.y < -winHeightHalf - 300.0 || translation.y > winHeightHalf + 300.0 {
          despawn := [Despawn(e.id, true)];
        }
      }
    }
  }

  /** Moves every entity of the movement query by its velocity, holds the
      player between the walls, and queues the removal of auto-despawn
      entities that left the band. */
  method MovementSystem(world: array<Entity>, win: WinSize) returns (cmds: seq<Command>)
    modifies world
    ensures forall i :: 0 <= i < world.Length ==> world[i] == Moved(old(world[i]), win)
    ensures cmds == MovementCommands(old(world[..]), win)
  {
    cmds := [];
    for i := 0 to world.Length
      invariant forall k :: 0 <= k < i ==> world[k] == Moved(old(world[k]), win)
      invariant forall k :: i <= k < world.Length ==> world[k] == old(world[k])
      invariant cmds == MovementCommands(old(world[..])[..i], win)
    {
      var e := world[i];
      assert old(world[..])[..i + 1] == old(world[..])[..i] + [e];
      var moved, despawn := MoveEntity(e, win);
      world[i] := moved;
      cmds := cmds + despawn;
    }
    assert old(world[..])[..world.Length] == old(world[..]);
  }

  /** The movement step queues only recursive despawns, no more than there
      are entities, and exactly for the entities it moved out of the band. */
  lemma {:induction false} MovementDespawns(s: seq<Entity>, win: WinSize)
    ensures var cmds := MovementCommands(s, win);
      && |cmds| <= |s|
      && (forall c :: c in cmds ==> c.Despawn? && c.recursive)
      && (forall id :: Despawn(id, true) in cmds <==>
            exists i :: 0 <= i < |s| && s[i].id == id && DespawnedByMovement(s[i], win))
  {
    if s != [] {
      var init := s[..|s| - 1];
      MovementDespawns(init, win);
      var cmds := MovementCommands(s, win);
      forall id
        ensures Despawn(id, true) in cmds <==>
          exists i :: 0 <= i < |s| && s[i].id == id && DespawnedByMovement(s[i], win)
      {
        if Despawn(id, true) in MovementCommands(init, win) {
          var i :| 0 <= i < |init| && init[i].id == id && DespawnedByMovement(init[i], win);
          assert s[i] == init[i];
        }
        if exists i :: 0 <= i < |s| && s[i].id == id && DespawnedByMovement(s[i], win) {
          var i :| 0 <= i < |s| && s[i].id == id && DespawnedByMovement(s[i], win);
          if i < |init| {
            assert init[i] == s[i];
          }
        }
      }
    }
  }

  /** With unique ids the movement step never removes an entity twice. */
  lemma {:induction false} MovementDespawnsOnce(s: seq<Entity>, win: WinSize)
    requires UniqueIds(s)
    ensures DespawnsDistinct(MovementCommands(s, win))
  {
    if s != [] {
      var init := s[..|s| - 1];
      var e := s[|s| - 1];
      assert UniqueIds(init) by {
        forall i, j | 0 <= i < j < |init|
          ensures init[i].id != init[j].id
        {
          assert init[i] == s[i] && init[j] == s[j];
        }
      }
      MovementDespawnsOnce(init, win);
      MovementDespawns(init, win);
      var before := MovementCommands(init, win);
      forall k | 0 <= k < |before| && before[k].Despawn?
        ensures before[k].target != e.id
      {
        assert Despawn(before[k].target, true) == before[k];
        var i :| 0 <= i < |init| && init[i].id == before[k].target && DespawnedByMovement(init[i], win);
        assert init[i] == s[i];
      }
    }
  }

  /** With unique ids, an entity that is not set to auto-despawn (the player)
      is never removed by the movement step. */
  lemma NoAutoDespawnSurvives(s: seq<Entity>, win: WinSize, j: nat)
    requires UniqueIds(s) && j < |s|
    requires s[j].parts.movable.Some? ==> !s[j].parts.movable.value.autoDespawn
    ensures Despawn(s[j].id, true) !in MovementCommands(s, win)
  {
    MovementDespawns(s, win);
    assert forall i :: 0 <= i < |s| && s[i].id == s[j].id ==> i == j;
    assert !DespawnedByMovement(s[j], win);
  }

  /** The band is closed: an entity that lands exactly on its edge stays. */
  lemma BandEdgeSurvives(e: Entity, win: WinSize)
    requires Moves(e) && win.h >= 0.0
    requires var y := Moved(e, win).parts.transform.translation.y;
      y == win.h / 2.0 + 300.0 || y == -(win.h / 2.0) - 300.0
    ensures !DespawnedByMovement(e, win)
    ensures Despawn(e.id, true) !in MovementCommands([e], win)
  {
    assert [e][..0] == [];
  }

  // ---------------------------------------------------------------------
  // Bullet / enemy hit test
  // ---------------------------------------------------------------------

  /** An axis-aligned box, as the engine builds it from a centre and a half
      size; boxes that touch intersect. */
  datatype Aabb2d = Aabb2d(min: Vec2, max: Vec2)

  function NewAabb(center: Vec2, halfSize: Vec2): Aabb2d {
    Aabb2d(Vec2(center.x - halfSize.x, center.y - halfSize.y),
           Vec2(center.x + halfSize.x, center.y + halfSize.y))
  }

  predicate Intersects(a: Aabb2d, b: Aabb2d) {
    && a.min.x <= b.max.x && a.max.x >= b.min.x
    && a.min.y <= b.max.y && a.max.y >= b.min.y
  }

  function Half(v: Vec2): Vec2 {
    Vec2(v.x / 2.0, v.y / 2.0)
  }

  /** The bullet box, centred on the bullet, overlaps the enemy box. */
  predicate Collides(bullet: Vec3, enemy: Vec3) {
    Intersects(NewAabb(Truncate(bullet), Half(BulletScale)), NewAabb(Truncate(enemy), Half(EnemyScale)))
  }

  function Abs(x: real): real {
    if x < 0.0 then -x else x
  }

  /** A bullet hits an enemy exactly when their centres are at most
      2.5 + 35 apart horizontally and 5 + 25 apart vertically. */
  lemma CollidesWithin(bullet: Vec3, enemy: Vec3)
    ensures Collides(bullet, enemy) <==>
      Abs(bullet.x - enemy.x) <= 37.5 && Abs(bullet.y - enemy.y) <= 30.0
  {
  }

  predicate IsBullet(e: Entity) {
    HasRole(e, Bullet)
  }

  predicate IsEnemy(e: Entity) {
    HasRole(e, Enemy)
  }

  /** The entity holding an explosion request and nothing else. */
  function RequestBundle(r: ExplosionToSpawn): Bundle {
    Bare(FromXyz(0.0, 0.0, 0.0)).(request := Some(r))
  }

  /** The two explosions queued where an enemy was hit, slightly in front of
      it: a blue ring and a red one. */
  function BlueRequest(at: Vec3): ExplosionToSpawn {
    ExplosionToSpawn(Plus(at, Vec3(0.0, 0.0, 0.5)), Blue, 0.1, 0.6)
  }

  function RedRequest(at: Vec3): ExplosionToSpawn {
    ExplosionToSpawn(Plus(at, Vec3(0.0, 0.0, 0.5)), Red, 0.15, 0.5)
  }

  /** What one hit queues: the enemy and its parts go, the bullet goes, two
      explosion requests appear. */
  function HitCommands(bullet: Entity, enemy: Entity): seq<Command> {
    var at := enemy.parts.transform.translation;
    [ Despawn(enemy.id, true),
      Despawn(bullet.id, false),
      Spawn(RequestBundle(BlueRequest(at)), []),
      Spawn(RequestBundle(RedRequest(at)), []) ]
  }

  /** A hit: positions of the bullet and of the enemy in their queries. */
  datatype Hit = Hit(bullet: nat, enemy: nat)

  /** The set of entities already marked for removal, the commands queued so
      far, and the log of hits (the log is not part of the program). */
  datatype HitState = HitState(marked: set<EntityId>, cmds: seq<Command>, hits: seq<Hit>)

  /** One pass of the inner loop: bullet `i` against enemy `j`. */
  function HitStep(bs: seq<Entity>, es: seq<Entity>, i: nat, j: nat, st: HitState): HitState
    requires i < |bs| && j < |es|
  {
    var b := bs[i];
    var e := es[j];
    if e.id in st.marked || b.id in st.marked then st
    else if Collides(b.parts.transform.translation, e.parts.transform.translation) then
      HitState(st.marked + {e.id} + {b.id}, st.cmds + HitCommands(b, e), st.hits + [Hit(i, j)])
    else st
  }

  /** The state after bullet `i` has been tested against enemies `es[..n]`. */
  function InnerLoop(bs: seq<Entity>, es: seq<Entity>, i: nat, n: nat, st: HitState): HitState
    requires i < |bs| && n <= |es|
  {
    if n == 0 then st else HitStep(bs, es, i, n - 1, InnerLoop(bs, es, i, n - 1, st))
  }

  /** The state after bullets `bs[..m]` have been processed. */
  function OuterLoop(bs: seq<Entity>, es: seq<Entity>, m: nat): HitState
    requires m <= |bs|
  {
    if m == 0 then HitState({}, [], [])
    else
      var st := OuterLoop(bs, es, m - 1);
      if bs[m - 1].id in st.marked then st else InnerLoop(bs, es, m - 1, |es|, st)
  }

  /** The outcome of the hit test on a store. */
  function HitTest(world: seq<Entity>): HitState {
    var bs := Query(world, IsBullet);
    OuterLoop(bs, Query(world, IsEnemy), |bs|)
  }

  /** Tests every bullet against every enemy, skipping entities already
      marked for removal, and queues the removals and explosions of each hit. */
  method EnemyHittestLaser(world: seq<Entity>) returns (cmds: seq<Command>)
    ensures cmds == HitTest(world).cmds
  {
    var bullets := Query(world, IsBullet);
    var enemies := Query(world, IsEnemy);
    var checkDespawn: set<EntityId> := {};
    ghost var hits: seq<Hit> := [];
    cmds := [];
    for i := 0 to |bullets|
      invariant HitState(checkDespawn, cmds, hits) == OuterLoop(bullets, enemies, i)
    {
      var bullet := bullets[i];
      if bullet.id in checkDespawn {
        continue;
      }
      ghost var before := HitState(checkDespawn, cmds, hits);
      for j := 0 to |enemies|
        invariant HitState(checkDespawn, cmds, hits) == InnerLoop(bullets, enemies, i, j, before)
      {
        var enemy := enemies[j];
        if enemy.id in checkDespawn || bullet.id in checkDespawn {
          continue;
        }
        var bulletBox := NewAabb(Truncate(bullet.parts.transform.translation), Half(BulletScale));
        var enemyBox := NewAabb(Truncate(enemy.parts.transform.translation), Half(EnemyScale));
        if Intersects(bulletBox, enemyBox) {
          cmds := cmds + [Despawn(enemy.id, true)];
          checkDespawn := checkDespawn + {enemy.id};
          cmds := cmds + [Despawn(bullet.id, false)];
          checkDespawn := checkDespawn + {bullet.id};
          var at := enemy.parts.transform.translation;
          cmds := cmds + [Spawn(RequestBundle(BlueRequest(at)), [])];
          cmds := cmds + [Spawn(RequestBundle(RedRequest(at)), [])];
          hits := hits + [Hit(i, j)];
        }
      }
    }
  }

  /** Enemy `e` is still in play and its box overlaps that of bullet `b`. */
  predicate Hittable(b: Entity, e: Entity, marked: set<EntityId>) {
    e.id !in marked && Collides(b.parts.transform.translation, e.parts.transform.translation)
  }

  /** The first of the enemies `es[..n]` that bullet `b` can hit. */
  function FirstHit(b: Entity, es: seq<Entity>, n: nat, marked: set<EntityId>): (r: Option<nat>)
    requires n <= |es|
    ensures r.Some? ==> r.value < n && Hittable(b, es[r.value], marked)
    ensures r.Some? ==> forall j :: 0 <= j < r.value ==> !Hittable(b, es[j], marked)
    ensures r.None? ==> forall j :: 0 <= j < n ==> !Hittable(b, es[j], marked)
  {
    if n == 0 then None
    else
      var r := FirstHit(b, es, n - 1, marked);
      if r.Some? then r
      else if Hittable(b, es[n - 1], marked) then Some(n - 1)
      else None
  }

  /** The inner loop lets a bullet that is still in play destroy the first
      enemy it overlaps and no other: after that hit the bullet is marked and
      every later enemy is skipped. */
  lemma {:induction false} InnerLoopFirstHit(bs: seq<Entity>, es: seq<Entity>, i: nat, n: nat, st: HitState)
    requires i < |bs| && n <= |es| && bs[i].id !in st.marked
    ensures InnerLoop(bs, es, i, n, st) ==
      match FirstHit(bs[i], es, n, st.marked)
      case None => st
      case Some(j) =>
        HitState(st.marked + {es[j].id} + {bs[i].id}, st.cmds + HitCommands(bs[i], es[j]), st.hits + [Hit(i, j)])
  {
    if n > 0 {
      InnerLoopFirstHit(bs, es, i, n - 1, st);
    }
  }

  predicate ValidHits(bs: seq<Entity>, es: seq<Entity>, hits: seq<Hit>) {
    forall q :: 0 <= q < |hits| ==> hits[q].bullet < |bs| && hits[q].enemy < |es|
  }

  /** Ids of the bullets and enemies destroyed by `hits`. */
  function HitIds(bs: seq<Entity>, es: seq<Entity>, hits: seq<Hit>): (r: set<EntityId>)
    requires ValidHits(bs, es, hits)
    ensures forall q :: 0 <= q < |hits| ==> es[hits[q].enemy].id in r && bs[hits[q].bullet].id in r
  {
    if hits == [] then {}
    else
      var h := hits[|hits| - 1];
      HitIds(bs, es, hits[..|hits| - 1]) + {es[h.enemy].id} + {bs[h.bullet].id}
  }

  /** The commands queued for `hits`, block after block. */
  function HitsCommands(bs: seq<Entity>, es: seq<Entity>, hits: seq<Hit>): seq<Command>
    requires ValidHits(bs, es, hits)
  {
    if hits == [] then []
    else
      var h := hits[|hits| - 1];
      HitsCommands(bs, es, hits[..|hits| - 1]) + HitCommands(bs[h.bullet], es[h.enemy])
  }

  /** Each hit destroys a bullet and an enemy that no earlier hit destroyed. */
  predicate FreshHits(bs: seq<Entity>, es: seq<Entity>, hits: seq<Hit>)
    requires ValidHits(bs, es, hits)
  {
    forall q :: 0 <= q < |hits| ==>
      && es[hits[q].enemy].id !in HitIds(bs, es, hits[..q])
      && bs[hits[q].bullet].id !in HitIds(bs, es, hits[..q])
  }

  /** No entity is the target of two despawn commands. */
  predicate DespawnsDistinct(cmds: seq<Command>) {
    forall k, l :: 0 <= k < l < |cmds| && cmds[k].Despawn? && cmds[l].Despawn? ==>
      cmds[k].target != cmds[l].target
  }

  /** What the hit test has done once bullets `bs[..m]` are processed: the
      marked set and the commands are those of the logged hits; each logged
      hit is an overlap; bullets hit in query order, each at most once; and
      neither party of a hit had been destroyed by an earlier hit. */
  ghost predicate HitLog(bs: seq<Entity>, es: seq<Entity>, m: nat, st: HitState) {
    && ValidHits(bs, es, st.hits)
    && st.marked == HitIds(bs, es, st.hits)
    && st.cmds == HitsCommands(bs, es, st.hits)
    && OrderedHits(bs, es, m, st.hits)
    && FreshHits(bs, es, st.hits)
  }

  /** Every hit is an overlap of one of the first `m` bullets, and the hits
      come in increasing bullet order. */
  predicate OrderedHits(bs: seq<Entity>, es: seq<Entity>, m: nat, hits: seq<Hit>)
    requires ValidHits(bs, es, hits)
  {
    && (forall q :: 0 <= q < |hits| ==>
          && hits[q].bullet < m
          && Collides(bs[hits[q].bullet].parts.transform.translation,
                      es[hits[q].enemy].parts.transform.translation))
    && (forall p, q :: 0 <= p < q < |hits| ==> hits[p].bullet < hits[q].bullet)
  }

  /** A hit of bullet `m - 1` on enemy `j`, neither of them destroyed yet,
      extends the log. */
  lemma LogExtend(bs: seq<Entity>, es: seq<Entity>, m: nat, st: HitState, j: nat)
    requires 0 < m <= |bs| && j < |es| && HitLog(bs, es, m - 1, st)
    requires bs[m - 1].id !in st.marked && es[j].id !in st.marked
    requires Collides(bs[m - 1].parts.transform.translation, es[j].parts.transform.translation)
    ensures HitLog(bs, es, m, HitState(st.marked + {es[j].id} + {bs[m - 1].id},
                                       st.cmds + HitCommands(bs[m - 1], es[j]),
                                       st.hits + [Hit(m - 1, j)]))
  {
    var h := Hit(m - 1, j);
    FreshExtend(bs, es, st.hits, h);
    ExtendLast(bs, es, st.hits, h);
    OrderExtend(bs, es, m, st.hits, h);
  }

  lemma ExtendLast(bs: seq<Entity>, es: seq<Entity>, hits: seq<Hit>, h: Hit)
    requires ValidHits(bs, es, hits) && h.bullet < |bs| && h.enemy < |es|
    ensures ValidHits(bs, es, hits + [h])
    ensures HitIds(bs, es, hits + [h]) == HitIds(bs, es, hits) + {es[h.enemy].id} + {bs[h.bullet].id}
    ensures HitsCommands(bs, es, hits + [h]) == HitsCommands(bs, es, hits) + HitCommands(bs[h.bullet], es[h.enemy])
  {
    assert ValidHits(bs, es, hits + [h]);
    assert (hits + [h])[..|hits|] == hits;
  }

  lemma OrderExtend(bs: seq<Entity>, es: seq<Entity>, m: nat, hits: seq<Hit>, h: Hit)
    requires 0 < m <= |bs| && h.bullet == m - 1 && h.enemy < |es|
    requires ValidHits(bs, es, hits) && OrderedHits(bs, es, m - 1, hits)
    requires Collides(bs[h.bullet].parts.transform.translation, es[h.enemy].parts.transform.translation)
    ensures ValidHits(bs, es, hits + [h]) && OrderedHits(bs, es, m, hits + [h])
  {
    var hits' := hits + [h];
    assert ValidHits(bs, es, hits');
    forall q | 0 <= q < |hits'|
      ensures hits'[q].bullet < m
      ensures Collides(bs[hits'[q].bullet].parts.transform.translation,
                       es[hits'[q].enemy].parts.transform.translation)
    {
      if q < |hits| {
        assert hits'[q] == hits[q];
      }
    }
    forall p, q | 0 <= p < q < |hits'|
      ensures hits'[p].bullet < hits'[q].bullet
    {
      assert hits'[p] == hits[p];
    }
  }

  /** A hit on two entities not yet destroyed keeps the hits fresh. */
  lemma FreshExtend(bs: seq<Entity>, es: seq<Entity>, hits: seq<Hit>, h: Hit)
    requires ValidHits(bs, es, hits) && FreshHits(bs, es, hits)
    requires h.bullet < |bs| && h.enemy < |es|
    requires es[h.enemy].id !in HitIds(bs, es, hits) && bs[h.bullet].id !in HitIds(bs, es, hits)
    ensures ValidHits(bs, es, hits + [h]) && FreshHits(bs, es, hits + [h])
  {
    var hits' := hits + [h];
    assert ValidHits(bs, es, hits');
    forall q | 0 <= q < |hits'|
      ensures es[hits'[q].enemy].id !in HitIds(bs, es, hits'[..q])
      ensures bs[hits'[q].bullet].id !in HitIds(bs, es, hits'[..q])
    {
      if q < |hits| {
        assert hits'[..q] == hits[..q];
      } else {
        assert hits'[..q] == hits;
      }
    }
  }

  lemma {:induction false} OuterLoopLog(bs: seq<Entity>, es: seq<Entity>, m: nat)
    requires m <= |bs|
    ensures HitLog(bs, es, m, OuterLoop(bs, es, m))
  {
    if m > 0 {
      OuterLoopLog(bs, es, m - 1);
      var st := OuterLoop(bs, es, m - 1);
      var b := bs[m - 1];
      if b.id !in st.marked {
        InnerLoopFirstHit(bs, es, m - 1, |es|, st);
        var first := FirstHit(b, es, |es|, st.marked);
        if first.Some? {
          LogExtend(bs, es, m, st, first.value);
        }
      }
    }
  }

  /** Every despawn the logged hits queue names a destroyed bullet or enemy. */
  lemma {:induction false} HitsDespawnHitIds(bs: seq<Entity>, es: seq<Entity>, hits: seq<Hit>)
    requires ValidHits(bs, es, hits)
    ensures |HitsCommands(bs, es, hits)| == 4 * |hits|
    ensures forall c :: c in HitsCommands(bs, es, hits) && c.Despawn? ==> c.target in HitIds(bs, es, hits)
  {
    if hits != [] {
      HitsDespawnHitIds(bs, es, hits[..|hits| - 1]);
    }
  }

  /** Block `q` of the queued commands is the block of hit `q`. */
  lemma {:induction false} HitsCommandsAt(bs: seq<Entity>, es: seq<Entity>, hits: seq<Hit>, q: nat)
    requires ValidHits(bs, es, hits) && q < |hits|
    ensures |HitsCommands(bs, es, hits)| == 4 * |hits|
    ensures HitsCommands(bs, es, hits)[4 * q .. 4 * q + 4] == HitCommands(bs[hits[q].bullet], es[hits[q].enemy])
  {
    var init := hits[..|hits| - 1];
    HitsDespawnHitIds(bs, es, hits);
    HitsDespawnHitIds(bs, es, init);
    if q < |init| {
      HitsCommandsAt(bs, es, init, q);
    }
  }

  /** The hit test on a store: four commands per hit (enemy and its parts
      removed, bullet removed, a blue and a red explosion requested at the
      enemy), every hit an overlap, each bullet and each enemy destroyed at
      most once, and nothing queued when there are no bullets or no enemies. */
  lemma HitTestAccounting(world: seq<Entity>)
    ensures
      var bs := Query(world, IsBullet);
      var es := Query(world, IsEnemy);
      var st := HitTest(world);
      && ValidHits(bs, es, st.hits)
      && |st.cmds| == 4 * |st.hits|
      && (forall q :: 0 <= q < |st.hits| ==>
            && st.cmds[4 * q .. 4 * q + 4] == HitCommands(bs[st.hits[q].bullet], es[st.hits[q].enemy])
            && Collides(bs[st.hits[q].bullet].parts.transform.translation,
                        es[st.hits[q].enemy].parts.transform.translation))
      && (forall p, q :: 0 <= p < q < |st.hits| ==>
            && st.hits[p].bullet < st.hits[q].bullet
            && es[st.hits[p].enemy].id != es[st.hits[q].enemy].id
            && bs[st.hits[p].bullet].id != bs[st.hits[q].bullet].id)
      && (bs == [] || es == [] ==> st.cmds == [])
  {
    var bs := Query(world, IsBullet);
    var es := Query(world, IsEnemy);
    var st := HitTest(world);
    OuterLoopLog(bs, es, |bs|);
    HitsDespawnHitIds(bs, es, st.hits);
    forall q | 0 <= q < |st.hits|
      ensures st.cmds[4 * q .. 4 * q + 4] == HitCommands(bs[st.hits[q].bullet], es[st.hits[q].enemy])
    {
      HitsCommandsAt(bs, es, st.hits, q);
    }
    forall p, q | 0 <= p < q < |st.hits|
      ensures es[st.hits[p].enemy].id != es[st.hits[q].enemy].id
      ensures bs[st.hits[p].bullet].id != bs[st.hits[q].bullet].id
    {
      var prefix := st.hits[..q];
      assert prefix[p] == st.hits[p];
      assert ValidHits(bs, es, prefix);
    }
    if bs == [] || es == [] {
      assert |st.hits| == 0;
    }
  }

  /** No despawn target repeats when each hit destroys two different
      entities, neither destroyed by an earlier hit. */
  lemma {:induction false} HitsDespawnDistinct(bs: seq<Entity>, es: seq<Entity>, hits: seq<Hit>)
    requires ValidHits(bs, es, hits)
    requires forall q :: 0 <= q < |hits| ==> es[hits[q].enemy].id != bs[hits[q].bullet].id
    requires FreshHits(bs, es, hits)
    ensures DespawnsDistinct(HitsCommands(bs, es, hits))
  {
    if hits != [] {
      var init := hits[..|hits| - 1];
      var h := hits[|hits| - 1];
      FreshPrefix(bs, es, hits);
      HitsDespawnDistinct(bs, es, init);
      HitsDespawnHitIds(bs, es, init);
      var ids := HitIds(bs, es, init);
      var block := HitCommands(bs[h.bullet], es[h.enemy]);
      assert forall c :: c in block && c.Despawn? ==> c.target !in ids;
      DistinctAppend(HitsCommands(bs, es, init), block, ids);
    }
  }

  /** Dropping the last hit keeps the hits fresh, and the last hit destroys
      nothing destroyed before it. */
  lemma FreshPrefix(bs: seq<Entity>, es: seq<Entity>, hits: seq<Hit>)
    requires ValidHits(bs, es, hits) && FreshHits(bs, es, hits) && hits != []
    ensures var init := hits[..|hits| - 1];
      var h := hits[|hits| - 1];
      && ValidHits(bs, es, init) && FreshHits(bs, es, init)
      && es[h.enemy].id !in HitIds(bs, es, init)
      && bs[h.bullet].id !in HitIds(bs, es, init)
  {
    var init := hits[..|hits| - 1];
    forall q | 0 <= q < |init|
      ensures es[init[q].enemy].id !in HitIds(bs, es, init[..q])
      ensures bs[init[q].bullet].id !in HitIds(bs, es, init[..q])
    {
      assert init[..q] == hits[..q];
    }
    assert hits[..|init|] == init;
  }

  /** Appending commands whose despawns avoid `ids` to commands whose
      despawns all name members of `ids` keeps despawn targets distinct. */
  lemma DistinctAppend(prev: seq<Command>, block: seq<Command>, ids: set<EntityId>)
    requires DespawnsDistinct(prev) && DespawnsDistinct(block)
    requires forall c :: c in prev && c.Despawn? ==> c.target in ids
    requires forall c :: c in block && c.Despawn? ==> c.target !in ids
    ensures DespawnsDistinct(prev + block)
  {
    var cmds := prev + block;
    forall k, l | 0 <= k < l < |cmds| && cmds[k].Despawn? && cmds[l].Despawn?
      ensures cmds[k].target != cmds[l].target
    {
      if l < |prev| {
        assert cmds[k] == prev[k] && cmds[l] == prev[l];
      } else if k < |prev| {
        assert cmds[k] == prev[k] && prev[k] in prev;
        assert cmds[l] == block[l - |prev|] && block[l - |prev|] in block;
      } else {
        assert cmds[k] == block[k - |prev|] && cmds[l] == block[l - |prev|];
      }
    }
  }

  /** Entities of different roles in a store with unique ids have different
      ids. */
  lemma DifferentRolesDifferentIds(world: seq<Entity>, b: Entity, e: Entity)
    requires UniqueIds(world) && b in world && e in world
    requires IsBullet(b) && IsEnemy(e)
    ensures b.id != e.id
  {
    var i :| 0 <= i < |world| && world[i] == b;
    var j :| 0 <= j < |world| && world[j] == e;
    assert i != j;
  }

  /** In a store with unique ids, the hit test never queues two despawns of
      the same entity. */
  lemma HitTestDespawnsOnce(world: seq<Entity>)
    requires UniqueIds(world)
    ensures DespawnsDistinct(HitTest(world).cmds)
  {
    var bs := Query(world, IsBullet);
    var es := Query(world, IsEnemy);
    OuterLoopLog(bs, es, |bs|);
    HitRolesDiffer(world, bs, es, HitTest(world).hits);
    LogDespawnsOnce(bs, es, |bs|, HitTest(world));
  }

  /** A logged hit pairs a bullet and an enemy of the store, so their ids
      differ. */
  lemma HitRolesDiffer(world: seq<Entity>, bs: seq<Entity>, es: seq<Entity>, hits: seq<Hit>)
    requires UniqueIds(world)
    requires bs == Query(world, IsBullet) && es == Query(world, IsEnemy)
    requires ValidHits(bs, es, hits)
    ensures forall q :: 0 <= q < |hits| ==> es[hits[q].enemy].id != bs[hits[q].bullet].id
  {
    forall q | 0 <= q < |hits|
      ensures es[hits[q].enemy].id != bs[hits[q].bullet].id
    {
      var b := bs[hits[q].bullet];
      var e := es[hits[q].enemy];
      assert b in bs && e in es;
      DifferentRolesDifferentIds(world, b, e);
    }
  }

  lemma LogDespawnsOnce(bs: seq<Entity>, es: seq<Entity>, m: nat, st: HitState)
    requires HitLog(bs, es, m, st)
    requires forall q :: 0 <= q < |st.hits| ==> es[st.hits[q].enemy].id != bs[st.hits[q].bullet].id
    ensures DespawnsDistinct(st.cmds)
  {
    HitsDespawnDistinct(bs, es, st.hits);
  }

  /** The number of commands of `cmds` that satisfy `p`. */
  function Count(cmds: seq<Command>, p: Command -> bool): nat {
    if cmds == [] then 0
    else Count(cmds[..|cmds| - 1], p) + (if p(cmds[|cmds| - 1]) then 1 else 0)
  }

  lemma {:induction false} CountAppend(a: seq<Command>, b: seq<Command>, p: Command -> bool)
    ensures Count(a + b, p) == Count(a, p) + Count(b, p)
  {
    if b != [] {
      assert (a + b)[..|a + b| - 1] == a + b[..|b| - 1];
      assert (a + b)[|a + b| - 1] == b[|b| - 1];
      CountAppend(a, b[..|b| - 1], p);
    } else {
      assert a + b == a;
    }
  }

  predicate IsExplosionRequest(c: Command) {
    c.Spawn? && c.bundle.request.Some?
  }

  predicate IsRecursiveDespawn(c: Command) {
    c.Despawn? && c.recursive
  }

  predicate IsPlainDespawn(c: Command) {
    c.Despawn? && !c.recursive
  }

  lemma HitCommandsCounts(b: Entity, e: Entity)
    ensures var block := HitCommands(b, e);
      && Count(block, IsExplosionRequest) == 2
      && Count(block, IsRecursiveDespawn) == 1
      && Count(block, IsPlainDespawn) == 1
  {
    var block := HitCommands(b, e);
    assert block[..1][..0] == [];
    assert block[..2][..1] == block[..1];
    assert block[..3][..2] == block[..2];
    assert block[..4][..3] == block[..3];
    assert block[..4] == block;
    CountPrefixes(block, IsExplosionRequest);
    CountPrefixes(block, IsRecursiveDespawn);
    CountPrefixes(block, IsPlainDespawn);
  }

  lemma CountPrefixes(block: seq<Command>, p: Command -> bool)
    requires |block| == 4
    ensures Count(block, p) ==
      (if p(block[0]) then 1 else 0) + (if p(block[1]) then 1 else 0) +
      (if p(block[2]) then 1 else 0) + (if p(block[3]) then 1 else 0)
  {
    assert block[..1][..0] == [];
    assert block[..2][..1] == block[..1];
    assert block[..3][..2] == block[..2];
    assert block[..4][..3] == block[..3];
    assert Count(block[..1], p) == (if p(block[0]) then 1 else 0);
    assert Count(block[..2], p) == Count(block[..1], p) + (if p(block[1]) then 1 else 0);
    assert Count(block[..3], p) == Count(block[..2], p) + (if p(block[2]) then 1 else 0);
    assert block[..4] == block;
  }

  lemma {:induction false} HitsCommandsCounts(bs: seq<Entity>, es: seq<Entity>, hits: seq<Hit>)
    requires ValidHits(bs, es, hits)
    ensures var cmds := HitsCommands(bs, es, hits);
      && Count(cmds, IsExplosionRequest) == 2 * |hits|
      && Count(cmds, IsRecursiveDespawn) == |hits|
      && Count(cmds, IsPlainDespawn) == |hits|
  {
    if hits != [] {
      var init := hits[..|hits| - 1];
      var h := hits[|hits| - 1];
      HitsCommandsCounts(bs, es, init);
      var block := HitCommands(bs[h.bullet], es[h.enemy]);
      HitCommandsCounts(bs[h.bullet], es[h.enemy]);
      CountAppend(HitsCommands(bs, es, init), block, IsExplosionRequest);
      CountAppend(HitsCommands(bs, es, init), block, IsRecursiveDespawn);
      CountAppend(HitsCommands(bs, es, init), block, IsPlainDespawn);
    }
  }

  /** One pass of the hit test removes as many enemies (with their parts) as
      bullets, one of each per hit, and requests two explosions per hit. */
  lemma HitTestCounts(world: seq<Entity>)
    ensures var st := HitTest(world);
      && Count(st.cmds, IsExplosionRequest) == 2 * |st.hits|
      && Count(st.cmds, IsRecursiveDespawn) == |st.hits|
      && Count(st.cmds, IsPlainDespawn) == |st.hits|
  {
    var bs := Query(world, IsBullet);
    OuterLoopLog(bs, Query(world, IsEnemy), |bs|);
    HitsCommandsCounts(bs, Query(world, IsEnemy), HitTest(world).hits);
  }

  /** A bullet overlapping two enemies destroys only the first of them. */
  lemma OneBulletTwoEnemies(b: Entity, e1: Entity, e2: Entity)
    requires IsBullet(b) && IsEnemy(e1) && IsEnemy(e2)
    requires b.id != e1.id && b.id != e2.id && e1.id != e2.id
    requires Collides(b.parts.transform.translation, e1.parts.transform.translation)
    requires Collides(b.parts.transform.translation, e2.parts.transform.translation)
    ensures HitTest([b, e1, e2]).cmds == HitCommands(b, e1)
  {
    QueryBulletTwoEnemies(b, e1, e2);
    FirstEnemyOnly(b, e1, e2);
  }

  lemma QueryBulletTwoEnemies(b: Entity, e1: Entity, e2: Entity)
    requires IsBullet(b) && IsEnemy(e1) && IsEnemy(e2)
    ensures Query([b, e1, e2], IsBullet) == [b]
    ensures Query([b, e1, e2], IsEnemy) == [e1, e2]
  {
    var world := [b, e1, e2];
    assert world[..2] == [b, e1] && [b, e1][..1] == [b] && [b][..0] == [];
    assert Query([b], IsBullet) == [b] && Query([b], IsEnemy) == [];
    assert Query([b, e1], IsBullet) == [b] && Query([b, e1], IsEnemy) == [e1];
  }

  lemma FirstEnemyOnly(b: Entity, e1: Entity, e2: Entity)
    requires Collides(b.parts.transform.translation, e1.parts.transform.translation)
    ensures OuterLoop([b], [e1, e2], 1).cmds == HitCommands(b, e1)
  {
    var bs := [b];
    var es := [e1, e2];
    var init := HitState({}, [], []);
    assert OuterLoop(bs, es, 0) == init;
    assert Hittable(b, e1, {});
    assert FirstHit(b, es, 1, {}) == Some(0);
    assert FirstHit(b, es, 2, {}) == Some(0);
    InnerLoopFirstHit(bs, es, 0, 2, init);
    assert [] + HitCommands(b, e1) == HitCommands(b, e1);
  }

  // ---------------------------------------------------------------------
  // Explosion spawning
  // ---------------------------------------------------------------------

  /** The explosion-spawn query: entities carrying an explosion request. */
  predicate HasRequest(e: Entity) {
    e.parts.request.Some?
  }

  /** A blue explosion is drawn in the ring colour, a red one in the colour
      of the inside of an enemy's eye. */
  function ColorFor(c: ExplosionColor, colors: GameColors): (m: MaterialHandle)
    ensures c == Blue ==> m == colors.explosionRing
    ensures c == Red ==> m == colors.enemyEyeInside
  {
    match c
    case Blue => colors.explosionRing
    case Red => colors.enemyEyeInside
  }

  /** The explosion a request turns into: a ring at the requested position,
      almost invisible at first, with a fresh one-second timer and the
      request's growth and decay rates. */
  function ExplosionBundle(r: ExplosionToSpawn, shapes: GameShapes, colors: GameColors): (b: Bundle)
    ensures b.transform.translation == r.at
    ensures b.transform.scale == Vec3(0.01, 0.01, 1.0)
    ensures b.explosion && Inert(b) && b.request.None?
    ensures b.explosionTimer.Some? && b.explosionTimer.value.Valid()
    ensures b.explosionTimer.value.mode == Once && b.explosionTimer.value.duration == 1.0
    ensures b.explosionTimer.value.elapsed == 0.0 && !b.explosionTimer.value.finished
    ensures b.animation == Some(ExplosionAnimationTime(r.growth, r.decay))
    ensures b.mesh == Some(shapes.explosionRing)
    ensures b.material == Some(ColorFor(r.color, colors))
  {
    Sprite(shapes.explosionRing, ColorFor(r.color, colors), Transform(r.at, Vec3(0.01, 0.01, 1.0)))
      .(explosion := true,
        explosionTimer := Some(DefaultExplosionTimer()),
        animation := Some(ExplosionAnimationTime(r.growth, r.decay)))
  }

  /** The commands queued for the requests `reqs`: each becomes an
      explosion, and the request entity itself is removed. */
  function SpawnCommands(reqs: seq<Entity>, shapes: GameShapes, colors: GameColors): seq<Command>
    requires forall k :: 0 <= k < |reqs| ==> HasRequest(reqs[k])
  {
    if reqs == [] then []
    else
      var e := reqs[|reqs| - 1];
      assert HasRequest(e);
      SpawnCommands(reqs[..|reqs| - 1], shapes, colors)
        + [Spawn(ExplosionBundle(e.parts.request.value, shapes, colors), []), Despawn(e.id, false)]
  }

  /** Turns every explosion request into an explosion and removes the
      request. */
  method ExplosionSpawnSystem(world: seq<Entity>, shapes: GameShapes, colors: GameColors)
    returns (cmds: seq<Command>)
    ensures var reqs := Query(world, HasRequest);
      forall k :: 0 <= k < |reqs| ==> HasRequest(reqs[k])
    ensures cmds == SpawnCommands(Query(world, HasRequest), shapes, colors)
  {
    var requests := Query(world, HasRequest);
    cmds := [];
    for i := 0 to |requests|
      invariant cmds == SpawnCommands(requests[..i], shapes, colors)
    {
      var entity := requests[i];
      assert requests[..i + 1][..i] == requests[..i];
      var toSpawn := entity.parts.request.value;
      var material := match toSpawn.color
        case Blue => colors.explosionRing
        case Red => colors.enemyEyeInside;
      var bundle := Sprite(shapes.explosionRing, material, Transform(toSpawn.at, Vec3(0.01, 0.01, 1.0)));
      bundle := bundle.(explosion := true);
      bundle := bundle.(explosionTimer := Some(DefaultExplosionTimer()));
      bundle := bundle.(animation := Some(ExplosionAnimationTime(toSpawn.growth, toSpawn.decay)));
      cmds := cmds + [Spawn(bundle, [])];
      cmds := cmds + [Despawn(entity.id, false)];
    }
    assert requests[..|requests|] == requests;
  }

  /** Two commands per request, in query order: the explosion it describes,
      then the plain removal of the request entity. */
  lemma {:induction false} SpawnCommandsAt(reqs: seq<Entity>, shapes: GameShapes, colors: GameColors)
    requires forall k :: 0 <= k < |reqs| ==> HasRequest(reqs[k])
    ensures var cmds := SpawnCommands(reqs, shapes, colors);
      && |cmds| == 2 * |reqs|
      && forall k :: 0 <= k < |reqs| ==>
           && cmds[2 * k] == Spawn(ExplosionBundle(reqs[k].parts.request.value, shapes, colors), [])
           && cmds[2 * k + 1] == Despawn(reqs[k].id, false)
  {
    if reqs != [] {
      var init := reqs[..|reqs| - 1];
      SpawnCommandsAt(init, shapes, colors);
      var cmds := SpawnCommands(reqs, shapes, colors);
      var prev := SpawnCommands(init, shapes, colors);
      forall k | 0 <= k < |reqs|
        ensures cmds[2 * k] == Spawn(ExplosionBundle(reqs[k].parts.request.value, shapes, colors), [])
        ensures cmds[2 * k + 1] == Despawn(reqs[k].id, false)
      {
        if k < |init| {
          assert reqs[k] == init[k];
          assert cmds[2 * k] == prev[2 * k] && cmds[2 * k + 1] == prev[2 * k + 1];
        }
      }
    }
  }

  /** The spawn step queues only explosions without parts and plain
      removals, and each removal names one of the requests. */
  lemma SpawnCommandsKinds(reqs: seq<Entity>, shapes: GameShapes, colors: GameColors)
    requires forall k :: 0 <= k < |reqs| ==> HasRequest(reqs[k])
    ensures var cmds := SpawnCommands(reqs, shapes, colors);
      && (forall c :: c in cmds ==>
            (c.Spawn? && c.children == [] && c.bundle.explosion) || (c.Despawn? && !c.recursive))
      && (forall id :: Despawn(id, false) in cmds ==> exists k :: 0 <= k < |reqs| && reqs[k].id == id)
  {
    SpawnCommandsAt(reqs, shapes, colors);
    var cmds := SpawnCommands(reqs, shapes, colors);
    forall n | 0 <= n < |cmds|
      ensures (cmds[n].Spawn? && cmds[n].children == [] && cmds[n].bundle.explosion)
           || (cmds[n].Despawn? && !cmds[n].recursive && exists k :: 0 <= k < |reqs| && reqs[k].id == cmds[n].target)
    {
      var k := n / 2;
      assert n == 2 * k || n == 2 * k + 1;
      assert k < |reqs|;
      assert ExplosionBundle(reqs[k].parts.request.value, shapes, colors).explosion;
    }
  }

  /** Every request in the store is answered by its explosion and its own
      removal, and no request produces anything else. */
  lemma ExplosionSpawnAnswersRequests(world: seq<Entity>, shapes: GameShapes, colors: GameColors)
    ensures var reqs := Query(world, HasRequest);
      var cmds := SpawnCommands(reqs, shapes, colors);
      && |cmds| == 2 * |reqs|
      && (forall e :: e in world && HasRequest(e) ==>
            && Spawn(ExplosionBundle(e.parts.request.value, shapes, colors), []) in cmds
            && Despawn(e.id, false) in cmds)
      && (forall c :: c in cmds ==>
            (c.Spawn? && c.children == [] && c.bundle.explosion) || (c.Despawn? && !c.recursive))
      && (forall id :: Despawn(id, false) in cmds ==> exists e :: e in world && HasRequest(e) && e.id == id)
  {
    var reqs := Query(world, HasRequest);
    SpawnCommandsAt(reqs, shapes, colors);
    SpawnCommandsKinds(reqs, shapes, colors);
    var cmds := SpawnCommands(reqs, shapes, colors);
    forall e | e in world && HasRequest(e)
      ensures Spawn(ExplosionBundle(e.parts.request.value, shapes, colors), []) in cmds
      ensures Despawn(e.id, false) in cmds
    {
      var k :| 0 <= k < |reqs| && reqs[k] == e;
      assert cmds[2 * k] == Spawn(ExplosionBundle(e.parts.request.value, shapes, colors), []);
      assert cmds[2 * k + 1] == Despawn(e.id, false);
    }
    forall id | Despawn(id, false) in cmds
      ensures exists e :: e in world && HasRequest(e) && e.id == id
    {
      var k :| 0 <= k < |reqs| && reqs[k].id == id;
      assert reqs[k] in reqs;
    }
  }

  // ---------------------------------------------------------------------
  // Explosion animation
  // ---------------------------------------------------------------------

  /** The animation query: explosions with a material, a timer and
      animation rates. */
  predicate Animates(e: Entity) {
    && e.parts.explosion
    && e.parts.material.Some?
    && e.parts.explosionTimer.Some?
    && e.parts.animation.Some?
  }

  /** Every explosion timer in the store is consistent. */
  predicate TimersValid(s: seq<Entity>) {
    forall i :: 0 <= i < |s| ==> s[i].parts.explosionTimer.Some? ==> s[i].parts.explosionTimer.value.Valid()
  }

  /** The timer of an animated explosion after a frame of `delta` seconds. */
  function TickedTimer(e: Entity, delta: real): (t: Timer)
    requires Animates(e) && e.parts.explosionTimer.value.Valid() && delta >= 0.0
    ensures t.Valid() && t.mode == e.parts.explosionTimer.value.mode
  {
    Tick(e.parts.explosionTimer.value, delta)
  }

  /** The explosion's timer runs out in this frame or had run out before. */
  predicate Expires(e: Entity, delta: real)
    requires Animates(e) && e.parts.explosionTimer.value.Valid() && delta >= 0.0
  {
    TickedTimer(e, delta).finished
  }

  /** An entity after one frame of animation: an explosion's timer advances,
      and an explosion that does not expire grows by its rate on all three
      axes. */
  function Animated(e: Entity, delta: real): (r: Entity)
    requires e.parts.explosionTimer.Some? ==> e.parts.explosionTimer.value.Valid()
    requires delta >= 0.0
    ensures r.id == e.id && Animates(r) == Animates(e)
    ensures r.parts.explosionTimer.Some? ==> r.parts.explosionTimer.value.Valid()
    ensures !Animates(e) ==> r == e
    ensures Animates(e) ==>
      && r.parts == e.parts.(explosionTimer := r.parts.explosionTimer, transform := r.parts.transform)
      && r.parts.explosionTimer == Some(TickedTimer(e, delta))
      && r.parts.transform.translation == e.parts.transform.translation
      && (Expires(e, delta) ==> r.parts.transform.scale == e.parts.transform.scale)
      && (!Expires(e, delta) ==>
            r.parts.transform.scale == Plus(e.parts.transform.scale, Splat(e.parts.animation.value.growth)))
  {
    if !Animates(e) then e
    else
      var t := TickedTimer(e, delta);
      var scale := if t.finished then e.parts.transform.scale
                   else Plus(e.parts.transform.scale, Splat(e.parts.animation.value.growth));
      e.(parts := e.parts.(explosionTimer := Some(t), transform := e.parts.transform.(scale := scale)))
  }

  /** The colour an explosion fades to: the alpha scaled by the decay
      factor and kept non-negative; colour channels and alpha mode unchanged. */
  function Faded(m: ColorMaterial, decay: real): (r: ColorMaterial)
    ensures r.red == m.red && r.green == m.green && r.blue == m.blue
    ensures r.alphaMode == m.alphaMode
    ensures r.alpha >= 0.0
    ensures m.alpha * decay >= 0.0 ==> r.alpha == m.alpha * decay
    ensures m.alpha * decay < 0.0 ==> r.alpha == 0.0
  {
    var alpha := m.alpha * decay;
    ColorMaterial(m.red, m.green, m.blue, if alpha >= 0.0 then alpha else 0.0, m.alphaMode)
  }

  /** With a decay factor in [0, 1] an explosion never becomes more opaque. */
  lemma FadedNeverBrighter(m: ColorMaterial, decay: real)
    requires 0.0 <= m.alpha && 0.0 <= decay <= 1.0
    ensures 0.0 <= Faded(m, decay).alpha <= m.alpha
  {
    if decay < 1.0 {
      assert m.alpha * (1.0 - decay) >= 0.0 by {
        if m.alpha > 0.0 {
          assert 1.0 - decay > 0.0;
        }
      }
    }
  }

  /** What a frame of animation queues and adds to the material store. */
  datatype Effects = Effects(cmds: seq<Command>, assets: map<MaterialHandle, ColorMaterial>, next: MaterialHandle)

  /** The effect of animating `e` after the effects `acc` of the entities
      before it: an expiring explosion is removed with its parts; any other
      gets a faded copy of its material under a new handle, unless its
      material is no longer in the store. */
  function EntityEffect(e: Entity, delta: real, acc: Effects): Effects
    requires e.parts.explosionTimer.Some? ==> e.parts.explosionTimer.value.Valid()
    requires delta >= 0.0
  {
    if !Animates(e) then acc
    else if Expires(e, delta) then acc.(cmds := acc.cmds + [Despawn(e.id, true)])
    else
      var h := e.parts.material.value;
      if h in acc.assets then
        Effects(acc.cmds + [InsertMaterial(e.id, acc.next)],
                acc.assets[acc.next := Faded(acc.assets[h], e.parts.animation.value.decay)],
                acc.next + 1)
      else acc
  }

  /** The effects of animating the entities `s` in order. */
  function AnimationEffects(s: seq<Entity>, delta: real, assets: map<MaterialHandle, ColorMaterial>, next: MaterialHandle): Effects
    requires TimersValid(s) && delta >= 0.0
  {
    if s == [] then Effects([], assets, next)
    else
      assert TimersValid(s[..|s| - 1]);
      EntityEffect(s[|s| - 1], delta, AnimationEffects(s[..|s| - 1], delta, assets, next))
  }

  /** One turn of the animation loop: the entity's new state, with the
      commands queued so far extended and the material store updated. */
  method AnimateEntity(e: Entity, store: MaterialStore, delta: real, cmds: seq<Command>)
    returns (animated: Entity, cmds': seq<Command>)
    requires e.parts.explosionTimer.Some? ==> e.parts.explosionTimer.value.Valid()
    requires delta >= 0.0 && store.Valid()
    modifies store
    ensures store.Valid() && animated == Animated(e, delta)
    ensures Effects(cmds', store.assets, store.next)
         == EntityEffect(e, delta, Effects(cmds, old(store.assets), old(store.next)))
  {
    animated := e;
    cmds' := cmds;
    if e.parts.explosion && e.parts.material.Some? && e.parts.explosionTimer.Some? && e.parts.animation.Some? {
      var timer := Tick(e.parts.explosionTimer.value, delta);
      var transform := e.parts.transform;
      if timer.finished {
        cmds' := cmds' + [Despawn(e.id, true)];
      } else {
        var growth := e.parts.animation.value.growth;
        transform := transform.(scale := Plus(transform.scale, Splat(growth)));
        var material := store.Get(e.parts.material.value);
        if material.Some? {
          var color := material.value;
          var alpha := color.alpha * e.parts.animation.value.decay;
          alpha := if alpha >= 0.0 then alpha else 0.0;
          var faded := ColorMaterial(color.red, color.green, color.blue, alpha, color.alphaMode);
          assert faded == Faded(color, e.parts.animation.value.decay);
          var handle := store.Add(faded);
          cmds' := cmds' + [InsertMaterial(e.id, handle)];
        }
      }
      animated := e.(parts := e.parts.(explosionTimer := Some(timer), transform := transform));
    }
  }

  /** Advances every explosion's timer; removes the explosions whose timer
      has run out; grows the others and gives them a faded copy of their
      material. */
  method ExplosionAnimationSystem(world: array<Entity>, store: MaterialStore, delta: real)
    returns (cmds: seq<Command>)
    requires TimersValid(world[..]) && delta >= 0.0 && store.Valid()
    modifies world, store
    ensures store.Valid() && TimersValid(world[..])
    ensures forall i :: 0 <= i < world.Length ==> world[i] == Animated(old(world[i]), delta)
    ensures Effects(cmds, store.assets, store.next)
         == AnimationEffects(old(world[..]), delta, old(store.assets), old(store.next))
  {
    cmds := [];
    for i := 0 to world.Length
      invariant store.Valid()
      invariant forall k :: 0 <= k < i ==> world[k] == Animated(old(world[k]), delta)
      invariant forall k :: i <= k < world.Length ==> world[k] == old(world[k])
      invariant Effects(cmds, store.assets, store.next)
             == AnimationEffects(old(world[..])[..i], delta, old(store.assets), old(store.next))
    {
      var e := world[i];
      assert old(world[..])[..i + 1] == old(world[..])[..i] + [e];
      assert old(world[..])[..i + 1][..i] == old(world[..])[..i];
      assert e.parts.explosionTimer.Some? ==> e.parts.explosionTimer.value.Valid();
      var animated;
      animated, cmds := AnimateEntity(e, store, delta, cmds);
      world[i] := animated;
    }
    assert old(world[..])[..world.Length] == old(world[..]);
  }

  /** A frame of animation queues a recursive removal exactly for the
      explosions whose timer has run out, and a material change only for
      explosions that live on, each pointing at a handle added in this
      frame. */
  lemma {:induction false} AnimationCommands(s: seq<Entity>, delta: real, assets: map<MaterialHandle, ColorMaterial>, next: MaterialHandle)
    requires TimersValid(s) && delta >= 0.0
    ensures var r := AnimationEffects(s, delta, assets, next);
      && next <= r.next
      && (forall c :: c in r.cmds ==> (c.Despawn? && c.recursive) || c.InsertMaterial?)
      && (forall id :: Despawn(id, true) in r.cmds <==>
            exists i :: 0 <= i < |s| && s[i].id == id && Animates(s[i]) && Expires(s[i], delta))
      && (forall id: EntityId, h: MaterialHandle :: InsertMaterial(id, h) in r.cmds ==>
            && next <= h < r.next && h in r.assets
            && exists i :: 0 <= i < |s| && s[i].id == id && Animates(s[i]) && !Expires(s[i], delta))
  {
    if s != [] {
      var init := s[..|s| - 1];
      var e := s[|s| - 1];
      assert TimersValid(init);
      AnimationCommands(init, delta, assets, next);
      var acc := AnimationEffects(init, delta, assets, next);
      var r := AnimationEffects(s, delta, assets, next);
      assert r == EntityEffect(e, delta, acc);
      forall id | Despawn(id, true) in r.cmds
        ensures exists i :: 0 <= i < |s| && s[i].id == id && Animates(s[i]) && Expires(s[i], delta)
      {
        if Despawn(id, true) in acc.cmds {
          var i :| 0 <= i < |init| && init[i].id == id && Animates(init[i]) && Expires(init[i], delta);
          assert s[i] == init[i];
        } else {
          assert s[|s| - 1] == e;
        }
      }
      forall id | exists i :: 0 <= i < |s| && s[i].id == id && Animates(s[i]) && Expires(s[i], delta)
        ensures Despawn(id, true) in r.cmds
      {
        var i :| 0 <= i < |s| && s[i].id == id && Animates(s[i]) && Expires(s[i], delta);
        if i < |init| {
          assert init[i] == s[i];
          assert Despawn(id, true) in acc.cmds;
        }
      }
      forall id: EntityId, h: MaterialHandle | InsertMaterial(id, h) in r.cmds
        ensures next <= h < r.next && h in r.assets
        ensures exists i :: 0 <= i < |s| && s[i].id == id && Animates(s[i]) && !Expires(s[i], delta)
      {
        if InsertMaterial(id, h) in acc.cmds {
          var i :| 0 <= i < |init| && init[i].id == id && Animates(init[i]) && !Expires(init[i], delta);
          assert s[i] == init[i];
        } else {
          assert s[|s| - 1] == e;
        }
      }
    }
  }

  /** An explosion that lives on through the frame gets, under a handle of
      its own, the faded copy of the material it showed; when its material
      is no longer in the store, no material change is queued for it. */
  lemma {:induction false} AnimationFades(s: seq<Entity>, delta: real, assets: map<MaterialHandle, ColorMaterial>, next: MaterialHandle, j: nat)
    requires TimersValid(s) && UniqueIds(s) && delta >= 0.0 && HandlesBelow(assets, next)
    requires j < |s| && Animates(s[j]) && !Expires(s[j], delta)
    ensures var r := AnimationEffects(s, delta, assets, next);
      var h := s[j].parts.material.value;
      && (h in assets ==>
            exists g: MaterialHandle :: InsertMaterial(s[j].id, g) in r.cmds && g in r.assets
              && r.assets[g] == Faded(assets[h], s[j].parts.animation.value.decay))
      && (h !in assets && h < next ==> forall g: MaterialHandle :: InsertMaterial(s[j].id, g) !in r.cmds)
  {
    var init := s[..|s| - 1];
    var e := s[|s| - 1];
    assert TimersValid(init);
    assert UniqueIds(init) by {
      forall i, k | 0 <= i < k < |init|
        ensures init[i].id != init[k].id
      {
        assert init[i] == s[i] && init[k] == s[k];
      }
    }
    AnimationAssets(init, delta, assets, next);
    AnimationCommands(init, delta, assets, next);
    var acc := AnimationEffects(init, delta, assets, next);
    var r := AnimationEffects(s, delta, assets, next);
    assert r == EntityEffect(e, delta, acc);
    var h := s[j].parts.material.value;
    if j < |init| {
      assert init[j] == s[j];
      AnimationFades(init, delta, assets, next, j);
      assert e.id != s[j].id;
      if h in assets {
        var g: MaterialHandle :| InsertMaterial(s[j].id, g) in acc.cmds && g in acc.assets
          && acc.assets[g] == Faded(assets[h], s[j].parts.animation.value.decay);
        assert g < acc.next;
        assert InsertMaterial(s[j].id, g) in r.cmds;
      }
    } else {
      assert e == s[j];
      if h in assets {
        assert acc.assets[h] == assets[h];
        assert r.cmds == acc.cmds + [InsertMaterial(e.id, acc.next)];
        assert InsertMaterial(e.id, acc.next) in r.cmds;
      } else if h < next {
        assert h !in acc.assets;
      }
    }
  }

  /** A frame of animation only adds materials: those already in the store
      keep their handle and value, the new ones get handles from `next` on
      and are never negatively transparent. */
  lemma {:induction false} AnimationAssets(s: seq<Entity>, delta: real, assets: map<MaterialHandle, ColorMaterial>, next: MaterialHandle)
    requires TimersValid(s) && delta >= 0.0 && HandlesBelow(assets, next)
    ensures var r := AnimationEffects(s, delta, assets, next);
      && HandlesBelow(r.assets, r.next)
      && (forall h :: h in assets ==> h in r.assets && r.assets[h] == assets[h])
      && (forall h :: h in r.assets && h !in assets ==> next <= h && r.assets[h].alpha >= 0.0)
  {
    if s != [] {
      assert TimersValid(s[..|s| - 1]);
      AnimationAssets(s[..|s| - 1], delta, assets, next);
      AnimationCommands(s[..|s| - 1], delta, assets, next);
    }
  }

  /** The explosion `e` after one animation frame per element of `deltas`. */
  function AnimateFrames(e: Entity, deltas: seq<real>): (r: Entity)
    requires e.parts.explosionTimer.Some? ==> e.parts.explosionTimer.value.Valid()
    requires NonNegative(deltas)
    ensures r.id == e.id && Animates(r) == Animates(e)
    ensures r.parts.explosionTimer.Some? ==> r.parts.explosionTimer.value.Valid()
    ensures r.parts.animation == e.parts.animation
  {
    if deltas == [] then e
    else
      assert NonNegative(deltas[..|deltas| - 1]);
      Animated(AnimateFrames(e, deltas[..|deltas| - 1]), deltas[|deltas| - 1])
  }

  /** Animating an explosion frame by frame runs its timer through the
      same ticks and never moves it. */
  lemma {:induction false} FramesTickTimer(e: Entity, deltas: seq<real>)
    requires Animates(e) && e.parts.explosionTimer.value.Valid() && NonNegative(deltas)
    ensures var f := AnimateFrames(e, deltas);
      && f.parts.explosionTimer == Some(TickAll(e.parts.explosionTimer.value, deltas))
      && f.parts.transform.translation == e.parts.transform.translation
  {
    if deltas != [] {
      assert NonNegative(deltas[..|deltas| - 1]);
      FramesTickTimer(e, deltas[..|deltas| - 1]);
    }
  }

  /** While less than a second has been fed to a fresh explosion timer, each
      frame grows the explosion by its rate. */
  lemma {:induction false} FramesGrow(e: Entity, deltas: seq<real>)
    requires Animates(e) && e.parts.explosionTimer == Some(DefaultExplosionTimer())
    requires NonNegative(deltas) && Sum(deltas) < 1.0
    ensures AnimateFrames(e, deltas).parts.transform.scale
         == Plus(e.parts.transform.scale, Splat((|deltas| as real) * e.parts.animation.value.growth))
  {
    if deltas == [] {
      assert Splat(0.0 * e.parts.animation.value.growth) == Splat(0.0);
    } else {
      var init := deltas[..|deltas| - 1];
      var d := deltas[|deltas| - 1];
      assert NonNegative(init);
      assert Sum(init) < 1.0;
      FramesGrow(e, init);
      FramesTickTimer(e, init);
      OnceFinishesAfterDuration(1.0, deltas);
      var prev := AnimateFrames(e, init);
      assert AnimateFrames(e, deltas) == Animated(prev, d);
      assert !Expires(prev, d);
      var n := |init| as real;
      var g := e.parts.animation.value.growth;
      assert |deltas| as real == n + 1.0;
      assert (n + 1.0) * g == n * g + g;
    }
  }

  /** A freshly spawned explosion stays in place, grows by its rate every
      frame while less than a second has passed, and its timer runs out
      exactly when the frames add up to one second. */
  lemma ExplosionLifecycle(id: EntityId, req: ExplosionToSpawn, shapes: GameShapes, colors: GameColors, deltas: seq<real>)
    requires NonNegative(deltas)
    ensures var f := AnimateFrames(Entity(id, ExplosionBundle(req, shapes, colors)), deltas);
      var n := |deltas| as real;
      var g := req.growth;
      && Animates(f)
      && f.parts.explosionTimer == Some(TickAll(DefaultExplosionTimer(), deltas))
      && (f.parts.explosionTimer.value.finished <==> Sum(deltas) >= 1.0)
      && f.parts.transform.translation == req.at
      && (Sum(deltas) < 1.0 ==> f.parts.transform.scale == Vec3(0.01 + n * g, 0.01 + n * g, 1.0 + n * g))
  {
    var e := Entity(id, ExplosionBundle(req, shapes, colors));
    FramesTickTimer(e, deltas);
    OnceFinishesAfterDuration(1.0, deltas);
    if Sum(deltas) < 1.0 {
      FramesGrow(e, deltas);
    }
  }
}
