# Jump game physics — a Dafny model

This project models the core of the platform "jump game" in the NeoCities
site. A scene is an ordered list of solid rectangles. One of them is the
player. At a fixed 60 ticks per second the scene updates every entity in
list order. The plain solid rectangles (ground, walls) do nothing. The player:

1. updates its velocity from the held keys:
   - air resistance;
   - friction when resting on ground;
   - jump;
   - left and right input, blocked by a wall it touches;
   - down input, which cancels upward motion;
2. resolves horizontal movement against the other solids: it moves freely, or
   snaps flush against one collider and bounces back at half speed;
3. resolves vertical movement: it falls under gravity, lands on the nearest
   solid below with a damped, rounded-up bounce, or stops under a ceiling.

Files:

- `geometry.dfy` (module `Geometry`): rectangles, strict overlap, and the
  collision query.
- `physics.dfy` (module `Physics`): the player's tick as pure functions on a
  `Body` value (position, size, velocity), with lemmas about it.
  - `Steer`, `ResolveHorizontal` and `ResolveVertical` are the three phases,
    and `Tick` composes them.
  - `SteerSpec`, `ResolveHorizontalSpec` and `ResolveVerticalSpec` state what
    each phase promises.
- `entities.dfy` (module `Entities`): `SolidRectangleEntity` as a class whose
  fields change in place. The player is the same class with `kind ==
  PlayerKind`. `UpdateGameState` dispatches on the kind. The player's
  imperative update is proved to leave the fields equal to `Physics.Tick` of
  the old fields.
- `scene.dfy` (module `Scenes`): the `Scene` class, holding a sequence of
  entities.
  - Its update loop is proved against `SceneTick`, a value-level
    specification. `SceneTick` follows object identity: each listing is
    ticked once, in list order, and every listing of the same object sees the
    result.
  - Lemmas relate a scene tick to the player's own tick.
- `jumpgame.dfy` (module `JumpGame`): the starting scene (player, ground, two
  walls) and the catch-up loop. The loop runs whole ticks until the tick
  clock reaches the frame time.

Numbers are modelled as exact reals. `Math.ceil` is modelled through
`Floor`. The held keys are a set of key names, since the source only tests
membership.

The collision query the player calls (`scene.CollidesWith`) and the solid
list its contact scans use (`scene.GetSolidEntities`) have no body among the
modelled files. The model gives the player `others`: the rectangles of every
other entity in the scene, excluded by object identity, in list order.
`Geometry.Collisions` keeps those that strictly overlap a probe.

The contact scans in the source also visit the player itself. The lemmas
`Physics.ContactIgnoresSelf` and `Scenes.PlayerScanIgnoresSelf` prove that
this changes no answer when the player has positive width and height.

When moving left, the fold at src/models/player.ts:64-67 keeps the collider
with the smallest left edge, although its variable is called
`rightMostCollision`. The model follows the fold. `Physics.HorizontalSnapCanOverlap` gives a concrete case
where this snap leaves the player overlapping a second solid it had hit.

## Model

| member | source | states |
|---|---|---|
| Geometry.Collisions | src/models/player.ts:57-58 | the hits are exactly the listed solids that strictly overlap the probe; none is reported when nothing overlaps |
| Geometry.CollisionsInOrder | src/models/player.ts:57-58 | the hits keep list order and multiplicity: hit k is the solid at the k-th of a strictly increasing list of positions that contains every overlapping solid's position |
| Physics.ContactIgnoresSelf | src/models/player.ts:136-173 | a rectangle of positive size is never in edge contact with itself, so bottom, left and right contact agree whether or not the scan also lists the player |
| Physics.MinLeftCollider | src/models/player.ts:64-67 | the chosen collider is one of the hits and has the least left edge among them; on a tie the one latest in the list wins |
| Physics.MaxRightCollider | src/models/player.ts:75-81 | the chosen collider is one of the hits and has the greatest right edge among them; on a tie the one latest in the list wins |
| Physics.MinTopCollider | src/models/player.ts:104-107 | the chosen collider is one of the hits and has the least top edge among them; on a tie the one latest in the list wins |
| Physics.MaxBottomCollider | src/models/player.ts:119-125 | the chosen collider is one of the hits and has the greatest bottom edge among them; on a tie the one latest in the list wins |
| Physics.SteerSpec | src/models/player.ts:24-49 | only velocities change; right input wins over left; a touching wall blocks the held direction; with no direction held, friction stops a grounded player at rest, and otherwise air resistance takes 1%; a jump needs ground; down input clamps upward speed to 0; the new horizontal speed is at most max(10, 0.99·old speed) |
| Physics.ResolveHorizontalSpec | src/models/player.ts:51-86 | only left edge and horizontal speed change; with no hit the player moves by its speed; with hits the speed becomes -0.5 times itself, and the player is flush against a hit solid: moving left, on the right edge of the hit starting farthest left; otherwise, on the left edge of the hit ending farthest right |
| Physics.ResolveVerticalSpec | src/models/player.ts:88-133 | only top edge and vertical speed change; with no hit the player moves and gains gravity unless it now stands on a solid; falling onto hits it rests on the highest hit top with speed ceil(min(0, 1 - 0.5·speed)); moving up it sits under the lowest hit bottom with speed 0 |
| Physics.HorizontalSnapLastHit | src/models/player.ts:62-84 | with hits, the player is flush against the hit, in hit-list order, that has the extreme edge and no later hit shares that edge, so the snap position is fully determined by the hit list |
| Physics.Tick | src/models/player.ts:23-134 | a tick never changes the player's size |
| Physics.HorizontalBounce | src/models/player.ts:85 | a horizontal collision halves the speed and reverses its direction |
| Physics.HorizontalSnapTouches | src/models/player.ts:62-84 | right after the horizontal phase snaps, the player is in left (resp. right) contact with a solid; the vertical phase that follows may still move it past that solid |
| Physics.HorizontalSnapCanOverlap | src/models/player.ts:62-72 | moving left against two overlapping hits, the snap to the one starting farthest left can leave the player inside the other |
| Physics.SnapLeftOntoFirst | src/models/player.ts:62-72 | moving left into two overlapped solids, the player snaps to the right edge of the one starting farther left and bounces at half speed, whatever the other's right edge |
| Physics.LandingRests | src/models/player.ts:102-112 | after landing the player stands on a solid and overlaps none of the solids it hit |
| Physics.LandingVelocity | src/models/player.ts:114-116 | the landing bounce is a whole number, upward or zero, and smaller in magnitude than half the falling speed |
| Physics.CeilingStops | src/models/player.ts:117-132 | after hitting a ceiling the vertical speed is 0 and the player overlaps none of the solids it hit |
| Physics.TickSpeedBound | src/models/player.ts:23-134 | a whole tick never makes the horizontal speed exceed max(10, 0.99·old speed) |
| Physics.RestIsStable | src/models/player.ts:23-134 | a player at rest on ground, clear of all solids, with no key held, stays in place with horizontal speed 0 |
| Physics.WallBounce | src/models/player.ts:41-86 | running right into a wall ends flush with it at speed -5 when right is held and -4.95 when coasting |
| Entities.SolidRectangleEntity.constructor | src/models/solid-rectangle-entity.ts:32-49 | stores the arguments and starts at rest |
| Entities.SolidRectangleEntity.Player | src/models/player.ts:12-21 | a movable solid rectangle with initial horizontal speed 10 |
| Entities.SolidRectangleEntity.IsSolid | src/models/solid-rectangle-entity.ts:9-11 | every solid rectangle is solid |
| Entities.SolidRectangleEntity.GetVertices | src/models/solid-rectangle-entity.ts:13-21 | eight numbers: the top-left, bottom-left, bottom-right and top-right corners |
| Entities.SolidRectangleEntity.MoveTo | src/models/solid-rectangle-entity.ts:61-65 | sets the top-left corner, changes nothing else, returns the same object |
| Entities.SolidRectangleEntity.ShallowClone | src/models/solid-rectangle-entity.ts:67-69 | a new object with the same kind and field values |
| Entities.SolidRectangleEntity.TouchingBottom | src/models/player.ts:136-147 | true exactly when some solid's top is the player's bottom and they overlap horizontally |
| Entities.SolidRectangleEntity.TouchingLeft | src/models/player.ts:149-160 | true exactly when some solid's right edge is the player's left edge and they overlap vertically |
| Entities.SolidRectangleEntity.TouchingRight | src/models/player.ts:162-173 | true exactly when some solid's left edge is the player's right edge and they overlap vertically |
| Entities.SolidRectangleEntity.UpdateGameState | src/models/solid-rectangle-entity.ts:27-30 | a plain solid rectangle's fields do not change; a player's become `Tick` of the old ones |
| Entities.SolidRectangleEntity.UpdatePlayer | src/models/player.ts:23-134 | the player's fields after the in-place update equal `Tick` of its old fields; depth and fixed flag unchanged |
| Entities.SolidRectangleEntity.UpdateVelocity | src/models/player.ts:24-49 | the fields after the velocity update equal `Steer` of the old fields |
| Entities.SolidRectangleEntity.MoveHorizontally | src/models/player.ts:51-86 | the fields after the clone probe and move equal `ResolveHorizontal` of the old fields |
| Entities.SolidRectangleEntity.MoveVertically | src/models/player.ts:88-133 | the fields after the clone probe and move equal `ResolveVertical` of the old fields |
| Scenes.OthersOfUnique | src/models/scene.ts:19-24 | an entity listed once sees every other entity's rectangle, in list order |
| Scenes.PlayerScanIgnoresSelf | src/models/player.ts:136-173 | in a scene, the player's contact answers are the same over all solids as over the others |
| Scenes.StaticSceneUnchanged | src/models/scene.ts:19-24 | a scene without a player is unchanged by a tick |
| Scenes.LonePlayerTick | src/models/scene.ts:19-24 | with one player listed once, a scene tick replaces the player's fields by its tick against all other rectangles in order, and changes nothing else |
| Scenes.DrawListIsEntityList | src/models/scene.ts:30-35 | the draw list is the entity list, since every entity asks to be drawn |
| Scenes.Scene.constructor | src/models/scene.ts:13-15 | a new scene is empty |
| Scenes.Scene.AddEntity | src/models/scene.ts:26-28 | appends the entity; the earlier ones keep their places |
| Scenes.Scene.UpdateGameState | src/models/scene.ts:19-24 | the entities' fields afterwards are `SceneTick` of the old ones (each listing ticked once, in list order, every listing of the same object seeing the result); depths and fixed flags unchanged |
| Scenes.Scene.UpdateEntity | src/models/scene.ts:21-22 | one loop step advances the scene by exactly one entity's update |
| Scenes.Scene.GetEntitiesToDraw | src/models/scene.ts:30-35 | returns the entity list, in order |
| JumpGame.BaseGeometry | src/scripts/jumpgame.ts:60-86 | the ground spans the screen width with its bottom on the screen's bottom and thickness ceil(maxTop/10); the walls are 4 wide, centred on x = 0 and x = maxLeft, reaching 500 beyond the screen top and bottom |
| JumpGame.CreateBaseScene | src/scripts/jumpgame.ts:55-90 | a fresh scene of player, ground, left wall, right wall in that order: four distinct objects, the three walls fixed solids at depth 0 and at rest |
| JumpGame.StartGame | src/scripts/jumpgame.ts:16-17 | a 100×100 player at (200, 200), depth 0, speed 10, first in the base scene |
| JumpGame.PlayerFirstTick | src/models/scene.ts:19-24 | when the first entity is the only player and all are distinct, a tick moves the player against everything after it and changes nothing else |
| JumpGame.BaseSceneTick | src/scripts/jumpgame.ts:55-90 | a tick of the starting scene is the player's tick against ground, left wall and right wall, in that order |
| JumpGame.TicksDue | src/scripts/jumpgame.ts:27-30 | the number of ticks the loop runs is the fewest that bring the tick clock to the frame time |
| JumpGame.CatchUp | src/scripts/jumpgame.ts:19-30 | the clock advances by exactly `TicksDue` ticks of 1000/60 ms, never goes back, ends at or past the frame time, and the scene has taken that many scene ticks |

## Left out

- Rendering: WebGL programs, `Draw`, `GetDrawMode`, colours and canvas resizing (src/scripts/main.ts).
  These are I/O and do not affect the simulation.
- The browser loop: `requestAnimationFrame`, and the key listeners that fill the held-key set.
  The frame time and the held keys are parameters (`time`, `keys`).
- `scene.CollidesWith` and `scene.GetSolidEntities` have no body in the modelled files.
  The behaviour the player relies on is stated as `Geometry.Collisions` over the other entities' rectangles.
- `Entities.SolidRectangleEntity.TouchingBottom`, `TouchingLeft` and `TouchingRight` scan the other solids.
  The source also scans the player itself. `ContactIgnoresSelf` and `PlayerScanIgnoresSelf` show that this is the same for a player of positive size.
- `scene.GenerateBox` and `BOX_WIDTH` (src/scripts/jumpgame.ts:95-100) are not defined in the modelled scene file.
  So the four floating boxes are not part of the starting scene here.
- The game loop calls `scene.UpdateGameState(keyPressed, maxLeft, maxTop)` and assigns its result to `scene`, but the scene's update takes only the keys and returns nothing.
  `JumpGame.CatchUp` models the update as done in place on the same scene.
- IEEE-754 double arithmetic, and the single-precision rounding of the `Float32Array` in `GetVertices`.
  Numbers are exact reals.
- `ShallowClone` in the source returns an object whose prototype is the original, so later changes to the original show through.
  The model makes an independent copy. The source uses the clone only as a probe before the original changes.
- The entity base classes (entity.ts, renderable-entity.ts, solid-entity.ts, solid-square-entity.ts) and src/utils/triangle.util.ts are not part of this model.
  `SolidRectangleEntity` carries the fields and methods they contribute to the core.
- Subclassing is not modelled as such.
  The player is a `SolidRectangleEntity` whose constant `kind` is `PlayerKind`, and `UpdateGameState` dispatches on it.
- Physics.Tick: its own contract states only that size is preserved.
  What a tick does is stated by `SteerSpec`, `ResolveHorizontalSpec` and `ResolveVerticalSpec` for its three phases, and by the tick lemmas.
