/** The entity store as the systems see it: entities with an id and the
    components they carry, the deferred commands the systems queue, and the
    queries that select entities by the components they carry. */
module World {

  import opened Options
  import opened Timers
  import opened Assets
  import opened Components

  type EntityId = nat

  /** The components one entity carries.  Every entity has a transform; the
      rest are optional. */
  datatype Bundle = Bundle(
    role: Option<Role>,
    transform: Transform,
    velocity: Option<Velocity>,
    movable: Option<Movable>,
    explosion: bool,
    explosionTimer: Option<Timer>,
    animation: Option<ExplosionAnimationTime>,
    request: Option<ExplosionToSpawn>,
    mesh: Option<MeshHandle>,
    material: Option<MaterialHandle>)

  /** A bundle with nothing but a transform. */
  function Bare(t: Transform): Bundle {
    Bundle(None, t, None, None, false, None, None, None, None, None)
  }

  /** A visible part: mesh, material and transform, and no behaviour. */
  function Sprite(mesh: MeshHandle, material: MaterialHandle, t: Transform): Bundle {
    Bare(t).(mesh := Some(mesh), material := Some(material))
  }

  /** A part with no role, no velocity and no movement marker takes no part
      in movement, collision or input handling. */
  predicate Inert(b: Bundle) {
    b.role == None && b.velocity == None && b.movable == None
  }

  datatype Entity = Entity(id: EntityId, parts: Bundle)

  /** Deferred changes to the store, applied after the systems have run. */
  datatype Command =
    | Spawn(bundle: Bundle, children: seq<Bundle>)
    | Despawn(target: EntityId, recursive: bool)
    | InsertMaterial(target: EntityId, material: MaterialHandle)

  predicate UniqueIds(s: seq<Entity>) {
    forall i, j :: 0 <= i < j < |s| ==> s[i].id != s[j].id
  }

  predicate HasRole(e: Entity, r: Role) {
    e.parts.role == Some(r)
  }

  /** The entities a query visits, in store order. */
  function Query(s: seq<Entity>, p: Entity -> bool): (r: seq<Entity>)
    ensures |r| <= |s|
    ensures forall k :: 0 <= k < |r| ==> p(r[k])
    ensures forall e :: e in r ==> e in s && p(e)
    ensures forall e :: e in s && p(e) ==> e in r
  {
    if s == [] then []
    else
      var last := s[|s| - 1];
      assert forall e :: e in s ==> e in s[..|s| - 1] || e == last;
      Query(s[..|s| - 1], p) + (if p(last) then [last] else [])
  }

  /** The positions of the entities a query visits, in increasing order. */
  function Matches(s: seq<Entity>, p: Entity -> bool): (r: seq<nat>)
    ensures forall k :: 0 <= k < |r| ==> r[k] < |s| && p(s[r[k]])
    ensures forall k, l :: 0 <= k < l < |r| ==> r[k] < r[l]
    ensures forall i :: 0 <= i < |s| && p(s[i]) ==> i in r
  {
    if s == [] then []
    else Matches(s[..|s| - 1], p) + (if p(s[|s| - 1]) then [|s| - 1] else [])
  }

  /** The position of the one entity a query visits, or None when it visits
      none or several. */
  function Single(s: seq<Entity>, p: Entity -> bool): (r: Option<nat>)
    ensures r.Some? ==> r.value < |s| && p(s[r.value])
    ensures r.Some? ==> forall j :: 0 <= j < |s| && j != r.value ==> !p(s[j])
    ensures r.None? ==>
      (forall j :: 0 <= j < |s| ==> !p(s[j])) ||
      (exists i, j :: 0 <= i < j < |s| && p(s[i]) && p(s[j]))
  {
    var m := Matches(s, p);
    if |m| == 1 then
      assert forall j :: 0 <= j < |s| && p(s[j]) ==> j == m[0];
      Some(m[0])
    else
      if |m| >= 2 then
        assert p(s[m[0]]) && p(s[m[1]]) && m[0] < m[1];
        None
      else
        None
  }
}
