/** A scene: the ordered list of entities on screen. Each tick updates every
    entity once, in list order; drawing takes the entities that ask to be drawn. */
module Scenes {
  import opened Geometry
  import opened Physics
  import opened Entities

  // ---------------------------------------------------------------------------
  // The scene as values: entity i's fields are bs[i].

  /** The current fields of each entity, in list order. */
  function BodiesOf(es: seq<SolidRectangleEntity>): (bs: seq<Body>)
    reads es
    ensures |bs| == |es| && forall j :: 0 <= j < |es| ==> bs[j] == es[j].State()
  {
    seq(|es|, j requires 0 <= j < |es| reads es => es[j].State())
  }

  /** The depth and the fixed flag of each entity, which a tick leaves alone. */
  function FlagsOf(es: seq<SolidRectangleEntity>): (fs: seq<(real, bool)>)
    reads es
    ensures |fs| == |es| && forall j :: 0 <= j < |es| ==> fs[j] == (es[j].depth, es[j].fixed)
  {
    seq(|es|, j requires 0 <= j < |es| reads es => (es[j].depth, es[j].fixed))
  }

  function Boxes(bs: seq<Body>): (rs: seq<Rect>)
    ensures |rs| == |bs| && forall j :: 0 <= j < |bs| ==> rs[j] == bs[j].Box()
  {
    seq(|bs|, j requires 0 <= j < |bs| => bs[j].Box())
  }

  /** Snapshots that give one object the same fields wherever it is listed. */
  predicate Coherent(es: seq<SolidRectangleEntity>, bs: seq<Body>) {
    |es| == |bs| &&
    forall j, k :: 0 <= j < |es| && 0 <= k < |es| && es[j] == es[k] ==> bs[j] == bs[k]
  }

  /** The solids `e` collides with: the rectangles of every listed entity that is
      not `e` itself, in list order (every solid rectangle reports IsSolid). */
  function OthersOf(es: seq<SolidRectangleEntity>, bs: seq<Body>, e: SolidRectangleEntity): (others: seq<Rect>)
    requires |bs| == |es|
    ensures |others| <= |es|
  {
    if es == [] then []
    else (if es[0] != e then [bs[0].Box()] else []) + OthersOf(es[1..], bs[1..], e)
  }

  /** For an entity listed once, at p, the solids it sees are all the others in order. */
  lemma {:induction false} OthersOfUnique(es: seq<SolidRectangleEntity>, bs: seq<Body>, p: nat)
    requires |bs| == |es| && p < |es|
    requires forall j :: 0 <= j < |es| && j != p ==> es[j] != es[p]
    ensures OthersOf(es, bs, es[p]) == Boxes(bs[..p]) + Boxes(bs[p + 1..])
  {
    if p == 0 {
      NoneExcluded(es[1..], bs[1..], es[0]);
      assert bs[..0] == [];
      assert bs[1..] == bs[0 + 1..];
    } else {
      var tail, tailBodies := es[1..], bs[1..];
      forall j | 0 <= j < |tail| && j != p - 1 ensures tail[j] != tail[p - 1] {
        assert tail[j] == es[j + 1];
      }
      OthersOfUnique(tail, tailBodies, p - 1);
      assert es[0] != es[p];
      assert tailBodies[..p - 1] == bs[1..p];
      assert tailBodies[p..] == bs[p + 1..];
      assert bs[..p][1..] == bs[1..p];
    }
  }

  /** When `e` is not listed, it sees every listed rectangle. */
  lemma {:induction false} NoneExcluded(es: seq<SolidRectangleEntity>, bs: seq<Body>, e: SolidRectangleEntity)
    requires |bs| == |es|
    requires forall j :: 0 <= j < |es| ==> es[j] != e
    ensures OthersOf(es, bs, e) == Boxes(bs)
  {
    if es != [] {
      assert es[0] != e;
      NoneExcluded(es[1..], bs[1..], e);
    }
  }

  /** What the player at p sees of its own edges is the same whether the scan
      skips it (as modelled) or includes it (as the source's loop over all solid
      entities does), provided it has positive width and height. */
  lemma PlayerScanIgnoresSelf(es: seq<SolidRectangleEntity>, bs: seq<Body>, p: nat)
    requires |bs| == |es| && p < |es|
    requires forall j :: 0 <= j < |es| && j != p ==> es[j] != es[p]
    requires bs[p].width > 0.0 && bs[p].height > 0.0
    ensures var me, others := bs[p].Box(), OthersOf(es, bs, es[p]);
      TouchesBottom(me, Boxes(bs)) == TouchesBottom(me, others) &&
      TouchesLeft(me, Boxes(bs)) == TouchesLeft(me, others) &&
      TouchesRight(me, Boxes(bs)) == TouchesRight(me, others)
  {
    OthersOfUnique(es, bs, p);
    BoxesSplit(bs, p);
    ContactIgnoresSelf(bs[p].Box(), Boxes(bs[..p]), Boxes(bs[p + 1..]));
  }

  lemma BoxesSplit(bs: seq<Body>, p: nat)
    requires p < |bs|
    ensures Boxes(bs) == Boxes(bs[..p]) + [bs[p].Box()] + Boxes(bs[p + 1..])
  {
    var lhs, rhs := Boxes(bs), Boxes(bs[..p]) + [bs[p].Box()] + Boxes(bs[p + 1..]);
    assert |lhs| == |rhs|;
    forall j | 0 <= j < |lhs| ensures lhs[j] == rhs[j] {
      if j < p {
        assert rhs[j] == Boxes(bs[..p])[j];
      } else if j > p {
        assert rhs[j] == Boxes(bs[p + 1..])[j - p - 1];
      }
    }
  }

  /** How a player moves in one tick, given the rectangles it collides with. */
  type Move = (Body, seq<Rect>) -> Body

  /** The player's move when `keys` are held: the physics tick. */
  function PlayerMove(keys: set<string>): Move {
    (b: Body, others: seq<Rect>) => Tick(b, others, keys)
  }

  /** Entity i takes its tick against the others' current rectangles; every
      listing of the same object sees the result. */
  function TickEntity(es: seq<SolidRectangleEntity>, bs: seq<Body>, move: Move, i: nat): (r: seq<Body>)
    requires |bs| == |es| && i < |es|
    ensures |r| == |bs|
  {
    var updated := if es[i].kind == PlayerKind then move(bs[i], OthersOf(es, bs, es[i])) else bs[i];
    seq(|bs|, j requires 0 <= j < |bs| => if es[j] == es[i] then updated else bs[j])
  }

  /** The first n entities ticked, in list order. */
  function TickPrefix(es: seq<SolidRectangleEntity>, bs: seq<Body>, move: Move, n: nat): (r: seq<Body>)
    requires |bs| == |es| && n <= |es|
    ensures |r| == |bs|
  {
    if n == 0 then bs else TickEntity(es, TickPrefix(es, bs, move, n - 1), move, n - 1)
  }

  /** One tick of the whole scene. */
  function SceneTick(es: seq<SolidRectangleEntity>, bs: seq<Body>, keys: set<string>): (r: seq<Body>)
    requires |bs| == |es|
    ensures |r| == |bs|
  {
    TickPrefix(es, bs, PlayerMove(keys), |es|)
  }

  /** A scene without a player does not change in a tick. */
  lemma {:induction false} StaticSceneUnchanged(es: seq<SolidRectangleEntity>, bs: seq<Body>, move: Move, n: nat)
    requires Coherent(es, bs) && n <= |es|
    requires forall j :: 0 <= j < |es| ==> es[j].kind == SolidKind
    ensures TickPrefix(es, bs, move, n) == bs
  {
    if n > 0 {
      StaticSceneUnchanged(es, bs, move, n - 1);
    }
  }

  /** With one player, listed once, a scene tick is that player's tick against
      every other entity's rectangle in list order; nothing else changes. */
  lemma LonePlayerTick(es: seq<SolidRectangleEntity>, bs: seq<Body>, keys: set<string>, p: nat)
    requires Coherent(es, bs) && p < |es|
    requires es[p].kind == PlayerKind
    requires forall j :: 0 <= j < |es| && j != p ==> es[j] != es[p] && es[j].kind == SolidKind
    ensures SceneTick(es, bs, keys) == bs[p := Tick(bs[p], Boxes(bs[..p]) + Boxes(bs[p + 1..]), keys)]
  {
    OthersOfUnique(es, bs, p);
    LonePlayerPrefix(es, bs, PlayerMove(keys), p, |es|);
  }

  lemma {:induction false} LonePlayerPrefix(es: seq<SolidRectangleEntity>, bs: seq<Body>, move: Move, p: nat, n: nat)
    requires Coherent(es, bs) && p < |es| && n <= |es|
    requires es[p].kind == PlayerKind
    requires forall j :: 0 <= j < |es| && j != p ==> es[j] != es[p] && es[j].kind == SolidKind
    ensures TickPrefix(es, bs, move, n) ==
      if n <= p then bs else bs[p := move(bs[p], OthersOf(es, bs, es[p]))]
  {
    if n > 0 {
      LonePlayerPrefix(es, bs, move, p, n - 1);
    }
  }

  /** The order-preserving selection of the entities that ask to be drawn. */
  function RenderFilter(es: seq<SolidRectangleEntity>): (drawn: seq<SolidRectangleEntity>)
    ensures |drawn| <= |es|
    ensures forall e :: e in drawn ==> e in es && e.ShouldRender()
  {
    if es == [] then []
    else (if es[0].ShouldRender() then [es[0]] else []) + RenderFilter(es[1..])
  }

  /** Every entity asks to be drawn, so the draw list is the entity list. */
  lemma {:induction false} DrawListIsEntityList(es: seq<SolidRectangleEntity>)
    ensures RenderFilter(es) == es
  {
    if es != [] {
      DrawListIsEntityList(es[1..]);
    }
  }

  // ---------------------------------------------------------------------------

  class Scene {
    var entities: seq<SolidRectangleEntity>

    constructor ()
      ensures entities == []
    {
      entities := [];
    }

    /** Appends `entity`; the earlier entities keep their places. */
    method AddEntity(entity: SolidRectangleEntity)
      modifies this
      ensures entities == old(entities) + [entity]
    {
      entities := entities + [entity];
    }

    /** The solids `e` collides with in this scene: the scene's collision query. */
    function SolidsExcept(e: SolidRectangleEntity): (others: seq<Rect>)
      reads this, entities
    {
      OthersOf(entities, BodiesOf(entities), e)
    }

    /** Updates every entity once, in list order; each sees the effect of the
        updates before it. The list itself does not change. */
    method UpdateGameState(keys: set<string>)
      modifies entities
      ensures BodiesOf(entities) == SceneTick(entities, old(BodiesOf(entities)), keys)
      ensures FlagsOf(entities) == old(FlagsOf(entities))
    {
      ghost var start := BodiesOf(entities);
      for i := 0 to |entities|
        invariant BodiesOf(entities) == TickPrefix(entities, start, PlayerMove(keys), i)
        invariant FlagsOf(entities) == old(FlagsOf(entities))
      {
        UpdateEntity(i, keys, start);
      }
    }

    /** The loop's step: entity i takes its tick against the others as they are now. */
    method UpdateEntity(i: nat, keys: set<string>, ghost start: seq<Body>)
      requires i < |entities| && |start| == |entities|
      requires BodiesOf(entities) == TickPrefix(entities, start, PlayerMove(keys), i)
      modifies entities[i]
      ensures BodiesOf(entities) == TickPrefix(entities, start, PlayerMove(keys), i + 1)
      ensures FlagsOf(entities) == old(FlagsOf(entities))
    {
      var entity := entities[i];
      ghost var before, flags := BodiesOf(entities), FlagsOf(entities);
      var others := SolidsExcept(entity);
      entity.UpdateGameState(others, keys);
      ghost var after := TickEntity(entities, before, PlayerMove(keys), i);
      forall j | 0 <= j < |entities|
        ensures entities[j].State() == after[j]
        ensures (entities[j].depth, entities[j].fixed) == flags[j]
      {
        if entities[j] != entity {
          assert entities[j].State() == before[j];
        }
      }
    }

    function GetEntitiesToDraw(): (drawn: seq<SolidRectangleEntity>)
      reads this
      ensures drawn == entities
    {
      DrawListIsEntityList(entities);
      RenderFilter(entities)
    }
  }
}
