/** The game script: the starting scene (player, ground, two walls) and the
    fixed-timestep loop that runs whole ticks until simulated time catches up
    with the frame time. */
module JumpGame {
  import opened Geometry
  import opened Physics
  import opened Entities
  import opened Scenes

  const TICK_PER_SECOND: real := 60.0
  const TICK_DURATION: real := 1000.0 / TICK_PER_SECOND

  /** The ground and the left and right walls of a screen `maxLeft` wide and `maxTop` high. */
  function BaseGeometry(maxTop: real, maxLeft: real): (g: seq<Rect>)
    ensures |g| == 3
    // ground: spans the screen's width, its bottom edge is the screen's bottom
    // edge, and it is a tenth of the screen's height thick, rounded up
    ensures g[0].left == 0.0 && g[0].Right() == maxLeft && g[0].Bottom() == maxTop
    ensures maxTop / 10.0 <= g[0].height < maxTop / 10.0 + 1.0 && g[0].height == g[0].height.Floor as real
    // walls: 4 wide, centred on x = 0 and x = maxLeft, from 500 above the screen to 500 below it
    ensures g[1].width == 4.0 && g[1].left + g[1].Right() == 0.0
    ensures g[2].width == 4.0 && g[2].left + g[2].Right() == 2.0 * maxLeft
    ensures forall k :: 1 <= k < 3 ==> g[k].top == -500.0 && g[k].Bottom() == maxTop + 500.0
  {
    var groundThickness := Ceil(maxTop / 10.0) as real;
    var groundHeight := maxTop - groundThickness;
    [Rect(0.0, groundHeight, maxLeft, groundThickness),
     Rect(-2.0, -500.0, 4.0, maxTop + 1000.0),
     Rect(maxLeft - 2.0, -500.0, 4.0, maxTop + 1000.0)]
  }

  /** The starting scene: the player first, then ground, left wall and right
      wall, all three fixed solids at depth 0 and at rest. */
  method CreateBaseScene(maxTop: real, maxLeft: real, player: SolidRectangleEntity) returns (scene: Scene)
    ensures fresh(scene)
    ensures |scene.entities| == 4 && scene.entities[0] == player
    ensures forall k :: 1 <= k < 4 ==>
      fresh(scene.entities[k]) && scene.entities[k].kind == SolidKind &&
      scene.entities[k].Bounds() == BaseGeometry(maxTop, maxLeft)[k - 1] &&
      scene.entities[k].depth == 0.0 && scene.entities[k].fixed &&
      scene.entities[k].velocityX == 0.0 && scene.entities[k].velocityY == 0.0
    ensures forall j, k :: 0 <= j < k < 4 ==> scene.entities[j] != scene.entities[k]
  {
    scene := new Scene();
    scene.AddEntity(player);

    var groundThickness := Ceil(maxTop / 10.0) as real;
    var groundHeight := maxTop - groundThickness;
    var ground := new SolidRectangleEntity(0.0, groundHeight, maxLeft, groundThickness, 0.0, true);
    var leftWall := new SolidRectangleEntity(-2.0, -500.0, 4.0, maxTop + 1000.0, 0.0, true);
    var rightWall := new SolidRectangleEntity(maxLeft - 2.0, -500.0, 4.0, maxTop + 1000.0, 0.0, true);

    scene.AddEntity(ground);
    scene.AddEntity(leftWall);
    scene.AddEntity(rightWall);
  }

  /** The game's start: a 100 by 100 player at (200, 200), depth 0, in the base scene. */
  method StartGame(maxTop: real, maxLeft: real) returns (scene: Scene, player: SolidRectangleEntity)
    ensures fresh(player) && player.kind == PlayerKind && !player.fixed
    ensures player.Bounds() == Rect(200.0, 200.0, 100.0, 100.0) && player.depth == 0.0
    ensures player.velocityX == 10.0 && player.velocityY == 0.0
    ensures fresh(scene) && |scene.entities| == 4 && scene.entities[0] == player
    ensures forall k :: 1 <= k < 4 ==>
      scene.entities[k].kind == SolidKind && scene.entities[k].Bounds() == BaseGeometry(maxTop, maxLeft)[k - 1]
    ensures forall j, k :: 0 <= j < k < 4 ==> scene.entities[j] != scene.entities[k]
  {
    player := new SolidRectangleEntity.Player(200.0, 200.0, 100.0, 100.0, 0.0);
    scene := CreateBaseScene(maxTop, maxLeft, player);
  }

  /** A tick of a scene whose first entity is the only player and whose
      entities are all distinct: the player moves against everything after it,
      in list order, and nothing else changes. */
  lemma PlayerFirstTick(es: seq<SolidRectangleEntity>, bs: seq<Body>, move: Move)
    requires |es| == |bs| > 0
    requires es[0].kind == PlayerKind && forall k :: 1 <= k < |es| ==> es[k].kind == SolidKind
    requires forall j, k :: 0 <= j < k < |es| ==> es[j] != es[k]
    ensures TickPrefix(es, bs, move, |es|) == [move(bs[0], Boxes(bs[1..]))] + bs[1..]
  {
    assert Coherent(es, bs);
    OthersOfUnique(es, bs, 0);
    LonePlayerPrefix(es, bs, move, 0, |es|);
    assert Boxes(bs[..0]) + Boxes(bs[0 + 1..]) == Boxes(bs[1..]) by {
      assert Boxes(bs[..0]) == [];
    }
    var b := move(bs[0], Boxes(bs[1..]));
    assert bs[0 := b] == [b] + bs[1..];
  }

  /** A tick of the starting scene moves the player against ground and walls,
      in that order, and leaves ground and walls where they are. */
  lemma BaseSceneTick(es: seq<SolidRectangleEntity>, bs: seq<Body>, keys: set<string>)
    requires |es| == 4 && |bs| == 4
    requires es[0].kind == PlayerKind && forall k :: 1 <= k < 4 ==> es[k].kind == SolidKind
    requires forall j, k :: 0 <= j < k < 4 ==> es[j] != es[k]
    ensures SceneTick(es, bs, keys) == [Tick(bs[0], [bs[1].Box(), bs[2].Box(), bs[3].Box()], keys)] + bs[1..]
  {
    assert Boxes(bs[1..]) == [bs[1].Box(), bs[2].Box(), bs[3].Box()];
    PlayerFirstTick(es, bs, PlayerMove(keys));
  }

  /** The tick clock after `n` ticks from `current`. */
  function Clock(current: real, n: nat): real {
    current + n as real * TICK_DURATION
  }

  /** The number of whole ticks the loop runs to bring `current` up to `time`:
      the fewest that reach it. */
  function TicksDue(current: real, time: real): (n: nat)
    ensures Clock(current, n) >= time
    ensures n > 0 ==> Clock(current, n - 1) < time
    ensures forall m: nat :: Clock(current, m) >= time ==> n <= m
  {
    if current >= time then 0 else Ceil((time - current) / TICK_DURATION)
  }

  /** A clock still short of `time` has fewer ticks than are due. */
  lemma ShortOfTime(current: real, time: real, m: nat)
    requires Clock(current, m) < time
    ensures m < TicksDue(current, time)
  {
    assert TICK_DURATION == 50.0 / 3.0;
  }

  /** Each tick advances the clock by one tick duration, and never backwards. */
  lemma ClockStep(current: real, n: nat)
    ensures Clock(current, n + 1) == Clock(current, n) + TICK_DURATION
    ensures current <= Clock(current, n) < Clock(current, n + 1)
  {
    assert TICK_DURATION == 50.0 / 3.0;
  }

  /** `n` scene ticks in a row. */
  function SceneTicks(es: seq<SolidRectangleEntity>, bs: seq<Body>, keys: set<string>, n: nat): (r: seq<Body>)
    requires |bs| == |es|
    ensures |r| == |bs|
  {
    if n == 0 then bs else SceneTick(es, SceneTicks(es, bs, keys, n - 1), keys)
  }

  /** Runs scene ticks until the tick clock reaches `time`, advancing it by
      exactly one tick duration per tick; the clock never goes back. */
  method CatchUp(scene: Scene, keys: set<string>, currentTickTime: real, time: real) returns (newTickTime: real)
    modifies scene.entities
    ensures newTickTime == Clock(currentTickTime, TicksDue(currentTickTime, time))
    ensures currentTickTime <= newTickTime && time <= newTickTime
    ensures BodiesOf(scene.entities) ==
      SceneTicks(scene.entities, old(BodiesOf(scene.entities)), keys, TicksDue(currentTickTime, time))
  {
    ghost var start := BodiesOf(scene.entities);
    ghost var due := TicksDue(currentTickTime, time);
    ghost var ticks: nat := 0;
    newTickTime := currentTickTime;
    while newTickTime < time
      invariant newTickTime == Clock(currentTickTime, ticks)
      invariant ticks <= due
      invariant BodiesOf(scene.entities) == SceneTicks(scene.entities, start, keys, ticks)
      decreases due - ticks
    {
      ShortOfTime(currentTickTime, time, ticks);
      ClockStep(currentTickTime, ticks);
      scene.UpdateGameState(keys);
      newTickTime := newTickTime + TICK_DURATION;
      ticks := ticks + 1;
    }
    ClockStep(currentTickTime, ticks);
  }
}
