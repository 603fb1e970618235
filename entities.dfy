/** Solid rectangles and the player, as objects whose fields change in place.
    The player is a solid rectangle with its own per-tick update; here the
    runtime class is the constant `kind`, and `UpdateGameState` dispatches on it. */
module Entities {
  import opened Geometry
  import opened Physics

  datatype Kind = SolidKind | PlayerKind

  class SolidRectangleEntity {
    const kind: Kind
    var left: real
    var top: real
    var width: real
    var height: real
    var depth: real
    var fixed: bool
    var velocityX: real
    var velocityY: real

    /** A plain solid rectangle: the arguments are stored as given, at rest. */
    constructor (left: real, top: real, width: real, height: real, depth: real, fixed: bool)
      ensures kind == SolidKind
      ensures this.left == left && this.top == top && this.width == width && this.height == height
      ensures this.depth == depth && this.fixed == fixed
      ensures velocityX == 0.0 && velocityY == 0.0
    {
      kind := SolidKind;
      this.width := width;
      this.height := height;
      this.left := left;
      this.top := top;
      this.depth := depth;
      this.fixed := fixed;
      velocityX := 0.0;
      velocityY := 0.0;
    }

    /** The player: movable, and starting with a horizontal speed of 10. */
    constructor Player(left: real, top: real, width: real, height: real, depth: real)
      ensures kind == PlayerKind
      ensures this.left == left && this.top == top && this.width == width && this.height == height
      ensures this.depth == depth && !fixed
      ensures velocityX == 10.0 && velocityY == 0.0
    {
      kind := PlayerKind;
      this.width := width;
      this.height := height;
      this.left := left;
      this.top := top;
      this.depth := depth;
      fixed := false;
      velocityX := 0.0;
      velocityY := 0.0;
      new;
      velocityX := 10.0;
    }

    /** A new object with every field of `original`: what `Object.create` yields
        for as long as the original's own fields do not change. */
    constructor CopyOf(original: SolidRectangleEntity)
      ensures kind == original.kind && State() == original.State()
      ensures depth == original.depth && fixed == original.fixed
    {
      kind := original.kind;
      width := original.width;
      height := original.height;
      left := original.left;
      top := original.top;
      depth := original.depth;
      fixed := original.fixed;
      velocityX := original.velocityX;
      velocityY := original.velocityY;
    }

    function Bounds(): Rect
      reads this
    {
      Rect(left, top, width, height)
    }

    /** The fields a tick reads and writes. */
    function State(): Body
      reads this
    {
      Body(left, top, width, height, velocityX, velocityY)
    }

    function IsSolid(): (solid: bool)
      ensures solid
    {
      true
    }

    /** Every renderable entity asks to be drawn. */
    function ShouldRender(): (render: bool)
      ensures render
    {
      true
    }

    /** The four corners as (x, y) pairs: top-left, bottom-left, bottom-right, top-right. */
    function GetVertices(): (v: seq<real>)
      reads this
      ensures |v| == 8
      ensures (v[0], v[1]) == (Bounds().left, Bounds().top)
      ensures (v[2], v[3]) == (Bounds().left, Bounds().Bottom())
      ensures (v[4], v[5]) == (Bounds().Right(), Bounds().Bottom())
      ensures (v[6], v[7]) == (Bounds().Right(), Bounds().top)
    {
      [left, top,
       left, top + height,
       left + width, top + height,
       left + width, top]
    }

    /** Moves the top-left corner and returns the same object. */
    method MoveTo(left: real, top: real) returns (self: SolidRectangleEntity)
      modifies this
      ensures self == this
      ensures this.left == left && this.top == top
      ensures width == old(width) && height == old(height) && depth == old(depth) && fixed == old(fixed)
      ensures velocityX == old(velocityX) && velocityY == old(velocityY)
    {
      this.left := left;
      this.top := top;
      return this;
    }

    /** A separate object with the same field values; moving it leaves this one alone. */
    method ShallowClone() returns (clone: SolidRectangleEntity)
      ensures fresh(clone)
      ensures clone.kind == kind && clone.State() == State()
      ensures clone.depth == depth && clone.fixed == fixed
    {
      clone := new SolidRectangleEntity.CopyOf(this);
    }

    /** Whether some solid's top edge is exactly this rectangle's bottom edge with
        the two overlapping horizontally. Stops at the first such solid. */
    method TouchingBottom(others: seq<Rect>) returns (touching: bool)
      ensures touching <==> exists i :: 0 <= i < |others| && BottomContact(Bounds(), others[i])
    {
      for i := 0 to |others|
        invariant forall j :: 0 <= j < i ==> !BottomContact(Bounds(), others[j])
      {
        var entity := others[i];
        if top + height == entity.top && left < entity.left + entity.width && left + width > entity.left {
          return true;
        }
      }
      return false;
    }

    /** Whether some solid's right edge is exactly this rectangle's left edge with
        the two overlapping vertically. */
    method TouchingLeft(others: seq<Rect>) returns (touching: bool)
      ensures touching <==> exists i :: 0 <= i < |others| && LeftContact(Bounds(), others[i])
    {
      for i := 0 to |others|
        invariant forall j :: 0 <= j < i ==> !LeftContact(Bounds(), others[j])
      {
        var entity := others[i];
        if left == entity.left + entity.width && top < entity.top + entity.height && top + height > entity.top {
          return true;
        }
      }
      return false;
    }

    /** Whether some solid's left edge is exactly this rectangle's right edge with
        the two overlapping vertically. */
    method TouchingRight(others: seq<Rect>) returns (touching: bool)
      ensures touching <==> exists i :: 0 <= i < |others| && RightContact(Bounds(), others[i])
    {
      for i := 0 to |others|
        invariant forall j :: 0 <= j < i ==> !RightContact(Bounds(), others[j])
      {
        var entity := others[i];
        if left + width == entity.left && top < entity.top + entity.height && top + height > entity.top {
          return true;
        }
      }
      return false;
    }

    /** One tick of this entity against the other solids of its scene: a plain
        solid rectangle does nothing, the player moves. */
    method UpdateGameState(others: seq<Rect>, keys: set<string>)
      modifies this
      ensures State() == if kind == PlayerKind then Tick(old(State()), others, keys) else old(State())
      ensures depth == old(depth) && fixed == old(fixed)
    {
      if kind == PlayerKind {
        UpdatePlayer(others, keys);
      }
    }

    /** The player's tick, step by step: velocities first, then a horizontal and
        a vertical move, each tried on a clone before the player itself moves. */
    method UpdatePlayer(others: seq<Rect>, keys: set<string>)
      modifies this
      ensures State() == Tick(old(State()), others, keys)
      ensures width == old(width) && height == old(height) && depth == old(depth) && fixed == old(fixed)
    {
      UpdateVelocity(others, keys);
      // horizontal movement is resolved first
      MoveHorizontally(others);
      MoveVertically(others);
    }

    /** Air resistance, friction at rest, jump, left/right input and fast fall. */
    method UpdateVelocity(others: seq<Rect>, keys: set<string>)
      modifies this
      ensures State() == Steer(old(State()), others, keys)
      ensures depth == old(depth) && fixed == old(fixed)
    {
      ApplyDrag(others, keys);
      ApplyPush(others, keys);
      if "s" in keys || "ArrowDown" in keys {
        velocityY := Max(0.0, velocityY);
      }
    }

    method ApplyDrag(others: seq<Rect>, keys: set<string>)
      modifies this
      ensures State() == Drag(old(State()), others, keys)
      ensures depth == old(depth) && fixed == old(fixed)
    {
      velocityX := velocityX * AIR_RESISTANCE;
      var grounded := TouchingBottom(others);
      if grounded {
        if velocityY == 0.0 {
          velocityX := 0.0;
        }
        if "w" in keys || "ArrowUp" in keys {
          velocityY := -JUMP_SPEED;
        }
      }
    }

    method ApplyPush(others: seq<Rect>, keys: set<string>)
      modifies this
      ensures State() == Push(old(State()), others, keys)
      ensures depth == old(depth) && fixed == old(fixed)
    {
      if "a" in keys || "ArrowLeft" in keys {
        velocityX := -SPEED;
        var blocked := TouchingLeft(others);
        if blocked {
          velocityX := 0.0;
        }
      }
      if "d" in keys || "ArrowRight" in keys {
        velocityX := SPEED;
        var blocked := TouchingRight(others);
        if blocked {
          velocityX := 0.0;
        }
      }
    }

    /** Tries the horizontal move on a clone; moves freely, or snaps against the
        selected collider and bounces. */
    method MoveHorizontally(others: seq<Rect>)
      modifies this
      ensures State() == ResolveHorizontal(old(State()), others)
      ensures depth == old(depth) && fixed == old(fixed)
    {
      var newHorizontalState := ShallowClone();
      newHorizontalState := newHorizontalState.MoveTo(left + velocityX, top);
      var horizontalCollisions := Collisions(newHorizontalState.Bounds(), others);
      assert newHorizontalState.Bounds() == HorizontalProbe(State());
      var self: SolidRectangleEntity;
      if |horizontalCollisions| == 0 {
        self := MoveTo(left + velocityX, top);
      } else {
        if velocityX < 0.0 {
          var minLeft := MinLeftCollider(horizontalCollisions);
          self := MoveTo(minLeft.left + minLeft.width, top);
        } else {
          var maxRight := MaxRightCollider(horizontalCollisions);
          self := MoveTo(maxRight.left - width, top);
        }
        velocityX := -velocityX * BOUNCE;
      }
    }

    /** Tries the vertical move on a clone; falls under gravity, lands with a
        damped bounce, or stops under a ceiling. */
    method MoveVertically(others: seq<Rect>)
      modifies this
      ensures State() == ResolveVertical(old(State()), others)
      ensures depth == old(depth) && fixed == old(fixed)
    {
      var newVerticalState := ShallowClone();
      newVerticalState := newVerticalState.MoveTo(left, top + velocityY);
      var verticalCollisions := Collisions(newVerticalState.Bounds(), others);
      assert newVerticalState.Bounds() == VerticalProbe(State());
      var self: SolidRectangleEntity;
      if |verticalCollisions| == 0 {
        self := MoveTo(left, top + velocityY);
        var onGround := TouchingBottom(others);
        if !onGround {
          velocityY := velocityY + GRAVITY;
        }
      } else {
        if velocityY > 0.0 {
          var minTop := MinTopCollider(verticalCollisions);
          self := MoveTo(left, top + (minTop.top - top - height));
          velocityY := Ceil(Min(0.0, 1.0 - velocityY * BOUNCE)) as real;
        } else {
          var maxBottom := MaxBottomCollider(verticalCollisions);
          self := MoveTo(left, maxBottom.top + maxBottom.height);
          velocityY := 0.0;
        }
      }
    }
  }
}
