# Gameplay core of a small 2D shooter, modelled in Dafny

The game is a vertical shooter built on an entity-component engine. The
player's ship sits near the bottom of the window. The arrow keys steer it and
the space bar fires bullets straight up. Enemies appear above the top edge
every two seconds and drift down. A bullet that overlaps an enemy destroys it
and leaves two expanding, fading explosion rings.

This project models the per-frame gameplay systems and proves what they
promise:

- `movement_system`, `enemy_hittest_laser`, `explosion_spawn_system` and
  `explosion_animation_system` (src/systems.rs) are in module `Systems`.
- `spawn_player_system`, `player_keyboard_event_system` and
  `player_fire_system` (src/player.rs) are in module `PlayerSystems`.
- `spawn_enemy_system` (src/enemy.rs) is in module `EnemySystems`.

The supporting modules are:

- `Components` (components.rs and the constants of main.rs).
- `Timers`: the part of the engine's timer the rules rely on, covering one-shot and repeating modes and the "finished" and "just finished" flags.
- `Assets`: the colour-material store, a class holding a handle-to-material map and the next free handle.
- `World`: the modelled engine plumbing. Entities are an id plus the components they carry. It also defines the deferred commands (spawn with children, despawn, recursive despawn, material insert) and the queries (filter in store order, and the "exactly one" query).

How the engine's behaviour is represented:

- A system that writes components in place works on an `array<Entity>` with a `modifies` clause. These are movement, explosion animation and steering.
- A system that only reads the store works on a `seq<Entity>` snapshot. These are the hit test, explosion spawning and firing.
- Every system returns the commands it queues, in order.
- Each looping system is proved against a specification function. The function is a fold over a prefix of the store, mirroring the loop.
- Delta time, key state and the random column are parameters.
- The hit test uses the engine's closed box test, so a bullet and an enemy whose boxes only touch at an edge collide.

## Model

| member | source | states |
|---|---|---|
| Timers.FromSeconds | src/components.rs:51 | a new timer is consistent, has nothing elapsed and is neither finished nor just finished |
| Timers.Tick | src/systems.rs:212 | A one-shot timer finishes once elapsed + delta reaches the duration and then stays finished. It is "just finished" only on that tick, and elapsed is capped at the duration. A repeating timer is "just finished" iff elapsed + delta reaches the duration. It keeps the remainder, so remainder + periods × duration = elapsed + delta. |
| Timers.RepeatingTickAccounts | src/enemy.rs:21 | a repeating tick loses no time: remainder plus completed periods times the duration is the old elapsed time plus delta |
| Timers.OnceFinishesAfterDuration | src/components.rs:49-52 | over any sequence of frames, a fresh one-shot timer is finished iff the frame times add up to its duration, and its elapsed time is that sum capped at the duration |
| Components.DefaultExplosionTimer | src/components.rs:49-52 | the explosion timer is a fresh one-shot timer of 1 second |
| Components.DefaultEnemySpawnTimer | src/main.rs:56-60 | the enemy spawn timer is a fresh repeating timer of 2 seconds |
| Assets.MaterialStore.Get | src/systems.rs:217 | a lookup finds a material exactly when its handle is in the store, and returns the stored value |
| Assets.MaterialStore.Add | src/systems.rs:223-227 | adding returns a handle not in use, stores the material under it, leaves every other entry unchanged and keeps all handles below the next free one |
| World.Query | src/systems.rs:145-146 | a query visits exactly the entities of the store that match, and nothing else |
| World.Single | src/player.rs:87 | the single-entity query yields the one matching entity, or nothing when none or several match |
| Systems.ClampX | src/systems.rs:117-129 | on a window at least 100 wide the player's x lies between the walls; an x strictly inside is unchanged; an x at or left of the left wall goes to the left wall, and one at or right of the right wall (and not at or left of the left wall) goes to the right wall |
| Systems.Moved | src/systems.rs:109-129 | A movement step adds velocity × (1/60 × 500) = velocity × 25/3 to x and y, and z is unchanged. Only the player's x is clamped; y is never clamped. Nothing but the translation changes, and entities outside the movement query are untouched. |
| Systems.MoveEntity | src/systems.rs:109-139 | one iteration of the movement loop produces the moved entity and the removal it queues |
| Systems.MovementSystem | src/systems.rs:104-141 | every entity in the store is replaced by its moved state, and the commands are those of the specification, in store order |
| Systems.MovementDespawns | src/systems.rs:131-139 | The movement step queues only recursive despawns, no more than there are entities. An entity is despawned iff it is auto-despawn and its new y is strictly outside the band of 300 units above and below the window. |
| Systems.MovementDespawnsOnce | src/systems.rs:131-139 | with unique ids, no entity is the target of two despawns queued by one movement step |
| Systems.NoAutoDespawnSurvives | src/systems.rs:131 | with unique ids, an entity that is not auto-despawn is never removed by movement |
| Systems.BandEdgeSurvives | src/systems.rs:134-135 | an entity landing exactly on the edge of the band is not removed (strict comparison) |
| Systems.CollidesWithin | src/systems.rs:156-163 | boxes of half-size (2.5, 5) and (35, 25) intersect iff the centres are at most 37.5 apart in x and 30 apart in y |
| Systems.EnemyHittestLaser | src/systems.rs:143-180 | the nested loop with its set of already-removed entities queues exactly the commands of the hit-test specification |
| Systems.FirstHit | src/systems.rs:153-165 | the enemy chosen is the first in query order that is still in play and overlaps the bullet; when there is none, no enemy is hittable |
| Systems.InnerLoopFirstHit | src/systems.rs:153-178 | a bullet still in play destroys only the first enemy it can hit; once it hits, later enemies are skipped |
| Systems.HitIds | src/systems.rs:168-172 | the removed set holds the enemy and the bullet of every hit |
| Systems.OuterLoopLog | src/systems.rs:150-179 | The loop's state after m bullets is described by a log of hits. The removed set and the commands follow from that log. Each hit is an overlap. The hits come in increasing bullet order, and no hit destroys an entity destroyed earlier. |
| Systems.HitsDespawnHitIds | src/systems.rs:166-172 | four commands per hit, and every despawn names a destroyed entity |
| Systems.HitsCommandsAt | src/systems.rs:165-177 | the q-th block of four commands is the block of the q-th hit |
| Systems.HitTestAccounting | src/systems.rs:148-179 | Each hit queues four commands, in this order: a recursive despawn of the enemy, a plain despawn of the bullet, a blue request (0.1, 0.6) and a red request (0.15, 0.5), both at the enemy's translation plus 0.5 in z. Every hit is an overlap. No bullet and no enemy is hit twice. With no bullets or no enemies nothing is queued. |
| Systems.HitsDespawnDistinct | src/systems.rs:166-172 | when each hit's two entities are distinct and not destroyed earlier, no despawn target repeats |
| Systems.HitTestDespawnsOnce | src/systems.rs:148-172 | in a store with unique ids, no entity is the target of two despawns in one pass |
| Systems.HitCommandsCounts | src/systems.rs:166-176 | a hit queues two explosion requests, one recursive despawn and one plain despawn |
| Systems.HitsCommandsCounts | src/systems.rs:165-177 | over a log of hits: twice as many explosion requests as hits, and as many enemy and bullet removals as hits |
| Systems.HitTestCounts | src/systems.rs:165-177 | one pass queues exactly two explosion requests per hit and removes as many enemies as bullets |
| Systems.OneBulletTwoEnemies | src/systems.rs:151-154 | a bullet that overlaps two enemies destroys only the first |
| Systems.ColorFor | src/systems.rs:191-194 | a blue explosion uses the ring material, a red one the material of the inside of an enemy's eye |
| Systems.ExplosionBundle | src/systems.rs:189-199 | An explosion is placed at the requested position with scale (0.01, 0.01, 1). It gets a fresh one-shot 1-second timer, the request's growth and decay rates, the ring mesh and the colour's material. It carries no role, velocity or movement marker. |
| Systems.ExplosionSpawnSystem | src/systems.rs:182-203 | the loop queues exactly the commands of the spawn specification for the requests in store order |
| Systems.SpawnCommandsAt | src/systems.rs:188-202 | two commands per request, in order: the explosion it describes, then the plain despawn of the request |
| Systems.SpawnCommandsKinds | src/systems.rs:189-201 | the spawn step queues only childless explosions and plain despawns, and each despawn names a request |
| Systems.ExplosionSpawnAnswersRequests | src/systems.rs:188-202 | every request in the store gets its explosion and its own removal, and nothing else is queued |
| Systems.TickedTimer | src/systems.rs:212 | the explosion's timer stays consistent and keeps its mode when ticked |
| Systems.Animated | src/systems.rs:211-215 | An animated explosion's timer is ticked. An expiring explosion keeps its scale. Any other grows by the growth rate on all three axes. Position and all other components are unchanged, and non-explosions are untouched. |
| Systems.Faded | src/systems.rs:218-225 | the faded material has alpha = max(alpha × decay, 0), and the same colour channels and alpha mode |
| Systems.FadedNeverBrighter | src/systems.rs:219 | with a decay factor in [0, 1] the alpha never increases |
| Systems.AnimateEntity | src/systems.rs:211-230 | One iteration of the animation loop yields the animated entity. An expiring explosion queues only its recursive despawn. A live one gets a faded copy of its material under a new handle, and an insert of that handle. When the material lookup misses, only the scale (and timer) change. |
| Systems.ExplosionAnimationSystem | src/systems.rs:205-232 | every entity becomes its animated state, and the commands and material store are those of the specification |
| Systems.AnimationCommands | src/systems.rs:212-228 | A frame removes, recursively, exactly the explosions whose timer has run out. Material inserts go only to explosions that live on, and each points at a handle added in this frame. |
| Systems.AnimationFades | src/systems.rs:216-228 | with unique ids, an explosion that lives on and whose material is in the store gets an insert of a handle that holds the faded copy of that material; when its material is missing from the store, no insert is queued for it |
| Systems.AnimationAssets | src/systems.rs:217-228 | a frame only adds materials: existing entries keep their value, new ones get handles from the next free one and have non-negative alpha |
| Systems.AnimateFrames | src/systems.rs:211-215 | animating frame after frame keeps the id, the timer's consistency and the rates |
| Systems.FramesTickTimer | src/systems.rs:212 | over several frames the explosion's timer goes through the same ticks and its position never changes |
| Systems.FramesGrow | src/systems.rs:215 | while less than a second has been fed to a fresh explosion, each frame adds the growth rate to its scale |
| Systems.ExplosionLifecycle | src/systems.rs:195-215 | A spawned explosion stays where it was requested. After n frames totalling less than 1 second its scale is (0.01 + n·g, 0.01 + n·g, 1 + n·g). Its timer has finished exactly when the frames add up to 1 second. |
| PlayerSystems.PlayerBundle | src/player.rs:34-41 | the player is tagged Player, has velocity (0, 0), is not auto-despawn and stands at (0, -h/2 + 100, 0) with the body mesh and material |
| PlayerSystems.PlayerParts | src/player.rs:43-76 | the five parts of the ship carry no role, velocity or movement marker, and are drawn at scale 1 centred on the ship's column |
| PlayerSystems.SpawnPlayerSystem | src/player.rs:28-81 | one spawn is queued: the player body with its five parts attached |
| PlayerSystems.PlayerStaysInPlay | src/player.rs:40 | the player is never removed by movement and, on a window at least 100 wide, stays between the walls |
| PlayerSystems.SpawnedPlayerAtRest | src/player.rs:78-80 | the new player stands between the walls and a movement step leaves it in place |
| PlayerSystems.KeyVelocityX | src/player.rs:88-94 | left gives -1 (and wins over right), right alone gives 1, no key gives 0 |
| PlayerSystems.Steered | src/player.rs:87-95 | With exactly one steerable player, only its velocity x is set from the keys and its y is kept. Every other entity, and every other component, is unchanged. With no player or several, the store is unchanged. |
| PlayerSystems.SteeringIdempotent | src/player.rs:88-94 | reading the keys twice has the effect of reading them once: the speed is set, not accumulated |
| PlayerSystems.PlayerKeyboardEventSystem | src/player.rs:83-96 | the store after the system is the steered store |
| PlayerSystems.BulletBundle | src/player.rs:107-114 | a bullet is tagged Bullet, at (x, y + 35, -0.1) of the player, with velocity (0, 1), auto-despawn, and the bullet mesh and material |
| PlayerSystems.PlayerFireSystem | src/player.rs:98-117 | at most one bullet per frame, fired iff space was just pressed and exactly one player exists, from that player's position |
| PlayerSystems.BulletClimbs | src/player.rs:110-114 | a fired bullet takes part in the hit test, keeps its column and climbs 25/3 per step |
| EnemySystems.EnemyBundle | src/enemy.rs:22-29 | an enemy is tagged Enemy, with velocity (0, -0.2), auto-despawn, at (x, h/2 + 100, -0.5) with the enemy body mesh and material |
| EnemySystems.EnemyParts | src/enemy.rs:31-64 | the five parts of an enemy carry no role, velocity or movement marker; the side lights sit 35 units to the left and right |
| EnemySystems.EnemySpawnTimer.constructor | src/main.rs:56-60 | the spawn timer resource starts as a fresh repeating 2-second timer |
| EnemySystems.EnemySpawnTimer.SpawnEnemySystem | src/enemy.rs:13-77 | The timer is ticked in place. Exactly one enemy, with its five parts, is queued on a frame in which a 2-second period ends, and nothing on any other frame. |
| EnemySystems.FreshEnemyInPlay | src/enemy.rs:71-75 | a new enemy spawned in the allowed columns is a hit-test target, keeps its x, stays between the walls, sinks 5/3 per step and is not removed by the step after its spawn |
| EnemySystems.SpawnTimerAccounts | src/main.rs:58 | over any frames, the spawn timer's remainder plus 2 seconds per completed period equals all the time fed to it |

## Left out

- `setup_system` (src/systems.rs:19-102) is not modelled. It covers the window, camera, bloom and the creation of meshes and materials. The mesh and material handles it creates are parameters (`GameShapes`, `GameColors`).
- The engine's command queue is not executed. Systems return the commands they queue; applying them is not modelled. This covers spawning, despawning (with or without children) and replacing a component.
- Parent/child links are not entities of the model. A spawn carries its children's bundles, and a recursive despawn names only the parent.
- The player's spawn-then-insert of its transform (src/player.rs:34-41, 78-80) is modelled as a single spawn whose bundle already has the final transform.
- Every entity carries a transform. The engine adds a default one to any entity with a mesh.
- Positions, scales, speeds and alpha are real numbers. Single-precision rounding is not modelled.
- The engine's timer and axis-aligned box types are library code that is not part of this model. The timer is modelled as elapsed and duration in seconds. A one-shot timer clamps at its duration and stays finished. A repeating timer wraps, counting whole periods. Pausing and the nanosecond clock are not modelled.
- The frame time, the key state (pressed / just pressed) and the random column are parameters of the systems.
- The four systems of src/systems.rs are registered without an order and may run in parallel. Each is modelled and verified as a standalone step; no per-frame schedule is modelled.
- Materials replaced by the animation are never removed from the store; freeing unused assets is not modelled.
- EnemySystems.EnemySpawnTimer.SpawnEnemySystem: requires the random column to lie in [-w/2 + 50, w/2 - 50) on frames that spawn. On a window 100 units wide or less that range is empty and the engine's random draw panics; that failure is not modelled.
- EnemySystems.EnemySpawnTimer.SpawnEnemySystem: queues one enemy even when a single frame spans several 2-second periods, as the source does; the model does not add a property about how many periods were skipped.
- Systems.ExplosionAnimationSystem: requires every explosion timer in the store to be consistent, which the engine's timer always is. The method's ensures shows the consistency is kept.
- Timers.FromSeconds: requires a positive duration; the engine also accepts a zero duration, which the game never uses.
- EnemySystems.SpawnTimerAccounts: stated for the game's 2-second timer only, not for a repeating timer of any duration.
- Systems.BandEdgeSurvives: assumes a window of non-negative height.
- EnemySystems.FreshEnemyInPlay: assumes a window of non-negative height.
- Systems.AnimationFades: the lookup-miss half is stated for material handles below the store's next free handle, that is, handles the store gave out. A handle the store never gave out could coincide with one added earlier in the same frame; the game never holds such a handle.
