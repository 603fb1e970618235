/** The player's per-tick physics as values: the velocity update driven by the
    held keys, then horizontal and vertical movement resolved against the solid
    rectangles of the scene. `Tick` is the specification the imperative
    `Entities.SolidRectangleEntity.UpdatePlayer` is proved against. */
module Physics {
  import opened Geometry

  const GRAVITY: real := 1.0
  const AIR_RESISTANCE: real := 0.99
  const SPEED: real := 10.0
  const JUMP_SPEED: real := 25.0
  /** The factor a collision multiplies the blocked velocity by (before flipping it). */
  const BOUNCE: real := 0.5

  /** The fields of a moving rectangle that a tick reads or writes. */
  datatype Body = Body(left: real, top: real, width: real, height: real, velocityX: real, velocityY: real) {
    function Box(): Rect { Rect(left, top, width, height) }
  }

  function Max(a: real, b: real): real { if a >= b then a else b }
  function Min(a: real, b: real): real { if a <= b then a else b }
  function Abs(a: real): real { if a >= 0.0 then a else -a }

  /** JavaScript's Math.ceil on an exact number. */
  function Ceil(x: real): (n: int)
    ensures x <= n as real < x + 1.0
  {
    -((-x).Floor)
  }

  // ---------------------------------------------------------------------------
  // Held keys: the input is the set of keys currently down; only membership is tested.

  predicate JumpHeld(keys: set<string>) { "w" in keys || "ArrowUp" in keys }
  predicate LeftHeld(keys: set<string>) { "a" in keys || "ArrowLeft" in keys }
  predicate RightHeld(keys: set<string>) { "d" in keys || "ArrowRight" in keys }
  predicate DownHeld(keys: set<string>) { "s" in keys || "ArrowDown" in keys }

  // ---------------------------------------------------------------------------
  // Edge contact: exact equality on one axis, strict overlap on the other.

  /** `e`'s top edge is exactly `p`'s bottom edge and they overlap horizontally. */
  predicate BottomContact(p: Rect, e: Rect) {
    p.top + p.height == e.top && p.left < e.left + e.width && p.left + p.width > e.left
  }

  /** `e`'s right edge is exactly `p`'s left edge and they overlap vertically. */
  predicate LeftContact(p: Rect, e: Rect) {
    p.left == e.left + e.width && p.top < e.top + e.height && p.top + p.height > e.top
  }

  /** `e`'s left edge is exactly `p`'s right edge and they overlap vertically. */
  predicate RightContact(p: Rect, e: Rect) {
    p.left + p.width == e.left && p.top < e.top + e.height && p.top + p.height > e.top
  }

  predicate TouchesBottom(p: Rect, solids: seq<Rect>) {
    exists i :: 0 <= i < |solids| && BottomContact(p, solids[i])
  }

  predicate TouchesLeft(p: Rect, solids: seq<Rect>) {
    exists i :: 0 <= i < |solids| && LeftContact(p, solids[i])
  }

  predicate TouchesRight(p: Rect, solids: seq<Rect>) {
    exists i :: 0 <= i < |solids| && RightContact(p, solids[i])
  }

  /** A rectangle of positive size is never in edge contact with itself, so
      scanning a list that also holds the player (as the source does) gives the
      same answers as scanning the other solids only. */
  lemma {:induction false} ContactIgnoresSelf(p: Rect, before: seq<Rect>, after: seq<Rect>)
    requires p.width > 0.0 && p.height > 0.0
    ensures TouchesBottom(p, before + [p] + after) == TouchesBottom(p, before + after)
    ensures TouchesLeft(p, before + [p] + after) == TouchesLeft(p, before + after)
    ensures TouchesRight(p, before + [p] + after) == TouchesRight(p, before + after)
  {
    var all, rest := before + [p] + after, before + after;
    assert !BottomContact(p, p) && !LeftContact(p, p) && !RightContact(p, p);
    if TouchesBottom(p, all) {
      var i :| 0 <= i < |all| && BottomContact(p, all[i]);
      var j := if i < |before| then i else i - 1;
      assert all[i] == rest[j];
    }
    if TouchesBottom(p, rest) {
      var j :| 0 <= j < |rest| && BottomContact(p, rest[j]);
      assert rest[j] == all[if j < |before| then j else j + 1];
    }
    if TouchesLeft(p, all) {
      var i :| 0 <= i < |all| && LeftContact(p, all[i]);
      var j := if i < |before| then i else i - 1;
      assert all[i] == rest[j];
    }
    if TouchesLeft(p, rest) {
      var j :| 0 <= j < |rest| && LeftContact(p, rest[j]);
      assert rest[j] == all[if j < |before| then j else j + 1];
    }
    if TouchesRight(p, all) {
      var i :| 0 <= i < |all| && RightContact(p, all[i]);
      var j := if i < |before| then i else i - 1;
      assert all[i] == rest[j];
    }
    if TouchesRight(p, rest) {
      var j :| 0 <= j < |rest| && RightContact(p, rest[j]);
      assert rest[j] == all[if j < |before| then j else j + 1];
    }
  }

  // ---------------------------------------------------------------------------
  // The four collider folds. The horizontal ones select the collider reaching
  // FARTHEST against the motion (least left when moving left, greatest right
  // edge when moving right); the vertical ones select the nearest. On ties the
  // later collider is kept.

  function MinLeftCollider(cs: seq<Rect>): (c: Rect)
    requires |cs| > 0
    ensures c in cs && forall d :: d in cs ==> c.left <= d.left
    // on a tie the later collider wins
    ensures exists k :: 0 <= k < |cs| && cs[k] == c && forall j :: k < j < |cs| ==> c.left < cs[j].left
  {
    cs[LastMinIndex(cs, (r: Rect) => r.left)]
  }

  function MaxRightCollider(cs: seq<Rect>): (c: Rect)
    requires |cs| > 0
    ensures c in cs && forall d :: d in cs ==> d.Right() <= c.Right()
    // on a tie the later collider wins
    ensures exists k :: 0 <= k < |cs| && cs[k] == c && forall j :: k < j < |cs| ==> cs[j].Right() < c.Right()
  {
    cs[LastMinIndex(cs, (r: Rect) => -(r.left + r.width))]
  }

  function MinTopCollider(cs: seq<Rect>): (c: Rect)
    requires |cs| > 0
    ensures c in cs && forall d :: d in cs ==> c.top <= d.top
    // on a tie the later collider wins
    ensures exists k :: 0 <= k < |cs| && cs[k] == c && forall j :: k < j < |cs| ==> c.top < cs[j].top
  {
    cs[LastMinIndex(cs, (r: Rect) => r.top)]
  }

  function MaxBottomCollider(cs: seq<Rect>): (c: Rect)
    requires |cs| > 0
    ensures c in cs && forall d :: d in cs ==> d.Bottom() <= c.Bottom()
    // on a tie the later collider wins
    ensures exists k :: 0 <= k < |cs| && cs[k] == c && forall j :: k < j < |cs| ==> cs[j].Bottom() < c.Bottom()
  {
    cs[LastMinIndex(cs, (r: Rect) => -(r.top + r.height))]
  }

  // ---------------------------------------------------------------------------
  // The three phases of a tick.

  /** Air resistance, friction at rest, jump, left/right input and fast fall.
      Nothing but the two velocities changes. */
  function Steer(b: Body, solids: seq<Rect>, keys: set<string>): (s: Body)
  {
    Dive(Push(Drag(b, solids, keys), solids, keys), keys)
  }

  /** Air resistance, then friction when resting on a solid, then the jump. */
  function Drag(b: Body, solids: seq<Rect>, keys: set<string>): (d: Body)
    ensures d.Box() == b.Box()
  {
    var grounded := TouchesBottom(b.Box(), solids);
    var vx := if grounded && b.velocityY == 0.0 then 0.0 else b.velocityX * AIR_RESISTANCE;
    var vy := if grounded && JumpHeld(keys) then -JUMP_SPEED else b.velocityY;
    b.(velocityX := vx, velocityY := vy)
  }

  /** Left input, then right input: full speed unless a wall touches that side. */
  function Push(b: Body, solids: seq<Rect>, keys: set<string>): (d: Body)
    ensures d.Box() == b.Box()
  {
    var vx1 := if LeftHeld(keys) then (if TouchesLeft(b.Box(), solids) then 0.0 else -SPEED) else b.velocityX;
    var vx2 := if RightHeld(keys) then (if TouchesRight(b.Box(), solids) then 0.0 else SPEED) else vx1;
    b.(velocityX := vx2)
  }

  /** Down input cancels upward motion. */
  function Dive(b: Body, keys: set<string>): (d: Body)
    ensures d.Box() == b.Box()
  {
    if DownHeld(keys) then b.(velocityY := Max(0.0, b.velocityY)) else b
  }

  /** The probe the horizontal phase tests: the body moved by its horizontal velocity. */
  function HorizontalProbe(b: Body): Rect { b.Box().MoveTo(b.left + b.velocityX, b.top) }

  /** The probe the vertical phase tests: the body moved by its vertical velocity. */
  function VerticalProbe(b: Body): Rect { b.Box().MoveTo(b.left, b.top + b.velocityY) }

  /** Horizontal movement: move freely, or snap against a collider and bounce. */
  function ResolveHorizontal(b: Body, solids: seq<Rect>): (h: Body)
  {
    var hits := Collisions(HorizontalProbe(b), solids);
    if hits == [] then b.(left := b.left + b.velocityX)
    else
      var newLeft :=
        if b.velocityX < 0.0 then
          var c := MinLeftCollider(hits); c.left + c.width
        else
          var c := MaxRightCollider(hits); c.left - b.width;
      b.(left := newLeft, velocityX := -b.velocityX * BOUNCE)
  }

  /** Vertical movement: fall freely under gravity, land on the nearest solid
      below with a damped integer bounce, or stop under the nearest solid above. */
  function ResolveVertical(b: Body, solids: seq<Rect>): (v: Body)
  {
    var hits := Collisions(VerticalProbe(b), solids);
    if hits == [] then
      var moved := b.(top := b.top + b.velocityY);
      if TouchesBottom(moved.Box(), solids) then moved else moved.(velocityY := b.velocityY + GRAVITY)
    else if b.velocityY > 0.0 then
      var c := MinTopCollider(hits);
      b.(top := b.top + (c.top - b.top - b.height),
         velocityY := Ceil(Min(0.0, 1.0 - b.velocityY * BOUNCE)) as real)
    else
      var c := MaxBottomCollider(hits);
      b.(top := c.top + c.height, velocityY := 0.0)
  }

  /** One tick of the player: steer, then resolve horizontally, then vertically.
      Only position and velocity change. */
  function Tick(b: Body, solids: seq<Rect>, keys: set<string>): (t: Body)
    ensures t.width == b.width && t.height == b.height
  {
    ResolveVertical(ResolveHorizontal(Steer(b, solids, keys), solids), solids)
  }

  // ---------------------------------------------------------------------------
  // What each phase promises.

  /** Steering changes only the two velocities. Right input is applied last, so
      it decides when both directions are held; a wall touching that side
      blocks it. With no direction held, friction stops a player resting on
      ground and air resistance slows any other. A jump needs ground under the
      player, and down input cancels upward motion. Steering never makes the
      player faster than the larger of its walking speed and its decayed speed. */
  lemma SteerSpec(b: Body, solids: seq<Rect>, keys: set<string>)
    ensures var s := Steer(b, solids, keys);
      s.left == b.left && s.top == b.top && s.width == b.width && s.height == b.height
    ensures var s := Steer(b, solids, keys);
      (RightHeld(keys) ==> s.velocityX == (if TouchesRight(b.Box(), solids) then 0.0 else SPEED)) &&
      (LeftHeld(keys) && !RightHeld(keys) ==>
         s.velocityX == (if TouchesLeft(b.Box(), solids) then 0.0 else -SPEED)) &&
      (!LeftHeld(keys) && !RightHeld(keys) ==>
         s.velocityX == (if TouchesBottom(b.Box(), solids) && b.velocityY == 0.0 then 0.0
                         else b.velocityX * AIR_RESISTANCE))
    ensures var s := Steer(b, solids, keys);
      (!DownHeld(keys) ==>
         s.velocityY == (if TouchesBottom(b.Box(), solids) && JumpHeld(keys) then -JUMP_SPEED else b.velocityY)) &&
      (DownHeld(keys) ==>
         s.velocityY == (if TouchesBottom(b.Box(), solids) && JumpHeld(keys) then 0.0 else Max(0.0, b.velocityY)))
    ensures Abs(Steer(b, solids, keys).velocityX) <= Max(SPEED, Abs(b.velocityX) * AIR_RESISTANCE)
  {
  }

  /** Horizontal movement changes only the left edge and the horizontal speed.
      With nothing hit the player moves by its speed. Otherwise the speed is
      halved and reversed, and the player snaps flush against one solid it hit:
      moving left, the left edge lands on the right edge of the hit solid that
      starts farthest left; otherwise the right edge lands on the left edge of
      the hit solid that ends farthest right. */
  lemma ResolveHorizontalSpec(b: Body, solids: seq<Rect>)
    ensures var h := ResolveHorizontal(b, solids);
      h.top == b.top && h.width == b.width && h.height == b.height && h.velocityY == b.velocityY
    ensures var h := ResolveHorizontal(b, solids);
      Collisions(HorizontalProbe(b), solids) == [] ==>
        h.left == b.left + b.velocityX && h.velocityX == b.velocityX
    ensures var h := ResolveHorizontal(b, solids);
      Collisions(HorizontalProbe(b), solids) != [] ==> h.velocityX == -b.velocityX * BOUNCE
    ensures var h := ResolveHorizontal(b, solids);
      Collisions(HorizontalProbe(b), solids) != [] && b.velocityX < 0.0 ==>
        exists c :: c in solids && Overlaps(HorizontalProbe(b), c) && h.left == c.Right() &&
          forall d :: d in solids && Overlaps(HorizontalProbe(b), d) ==> c.left <= d.left
    ensures var h := ResolveHorizontal(b, solids);
      Collisions(HorizontalProbe(b), solids) != [] && b.velocityX >= 0.0 ==>
        exists c :: c in solids && Overlaps(HorizontalProbe(b), c) && h.left + h.width == c.left &&
          forall d :: d in solids && Overlaps(HorizontalProbe(b), d) ==> d.Right() <= c.Right()
  {
  }

  /** Which solid the horizontal snap uses when several hits share the extreme
      edge: the last of them in the order of the hit list. */
  lemma HorizontalSnapLastHit(b: Body, solids: seq<Rect>)
    ensures var h, hits := ResolveHorizontal(b, solids), Collisions(HorizontalProbe(b), solids);
      hits != [] && b.velocityX < 0.0 ==>
        exists k :: 0 <= k < |hits| && h.left == hits[k].Right() &&
          (forall j :: 0 <= j < |hits| ==> hits[k].left <= hits[j].left) &&
          (forall j :: k < j < |hits| ==> hits[k].left < hits[j].left)
    ensures var h, hits := ResolveHorizontal(b, solids), Collisions(HorizontalProbe(b), solids);
      hits != [] && b.velocityX >= 0.0 ==>
        exists k :: 0 <= k < |hits| && h.left + h.width == hits[k].left &&
          (forall j :: 0 <= j < |hits| ==> hits[j].Right() <= hits[k].Right()) &&
          (forall j :: k < j < |hits| ==> hits[j].Right() < hits[k].Right())
  {
  }

  /** Vertical movement changes only the top edge and the vertical speed. With
      nothing hit the player moves by its speed, and gravity adds to the speed
      unless the player now stands on a solid. Falling onto solids, the bottom
      edge lands on the top of the highest one hit and the speed becomes the
      damped, rounded-up bounce. Otherwise the top edge lands on the bottom of
      the lowest solid hit and vertical motion stops. */
  lemma ResolveVerticalSpec(b: Body, solids: seq<Rect>)
    ensures var v := ResolveVertical(b, solids);
      v.left == b.left && v.width == b.width && v.height == b.height && v.velocityX == b.velocityX
    ensures var v := ResolveVertical(b, solids);
      Collisions(VerticalProbe(b), solids) == [] ==>
        v.top == b.top + b.velocityY &&
        (v.velocityY == if TouchesBottom(v.Box(), solids) then b.velocityY else b.velocityY + GRAVITY)
    ensures var v := ResolveVertical(b, solids);
      Collisions(VerticalProbe(b), solids) != [] && b.velocityY > 0.0 ==>
        (exists c :: c in solids && Overlaps(VerticalProbe(b), c) && v.top + v.height == c.top &&
           forall d :: d in solids && Overlaps(VerticalProbe(b), d) ==> c.top <= d.top) &&
        v.velocityY == Ceil(Min(0.0, 1.0 - b.velocityY * BOUNCE)) as real
    ensures var v := ResolveVertical(b, solids);
      Collisions(VerticalProbe(b), solids) != [] && b.velocityY <= 0.0 ==>
        (exists c :: c in solids && Overlaps(VerticalProbe(b), c) && v.top == c.Bottom() &&
           forall d :: d in solids && Overlaps(VerticalProbe(b), d) ==> d.Bottom() <= c.Bottom()) &&
        v.velocityY == 0.0
  {
  }

  // ---------------------------------------------------------------------------
  // Properties of a tick.

  /** A horizontal collision halves the speed and reverses the direction. */
  lemma HorizontalBounce(b: Body, solids: seq<Rect>)
    requires Collisions(HorizontalProbe(b), solids) != []
    ensures Abs(ResolveHorizontal(b, solids).velocityX) == Abs(b.velocityX) * BOUNCE
    ensures b.velocityX > 0.0 ==> ResolveHorizontal(b, solids).velocityX < 0.0
    ensures b.velocityX < 0.0 ==> ResolveHorizontal(b, solids).velocityX > 0.0
  {
  }

  /** Right after the horizontal phase snaps against a solid, the player is in
      edge contact with it on that side. (The vertical phase that follows may
      still carry it past the solid's end.) */
  lemma HorizontalSnapTouches(b: Body, solids: seq<Rect>)
    requires Collisions(HorizontalProbe(b), solids) != []
    ensures b.velocityX < 0.0 ==> TouchesLeft(ResolveHorizontal(b, solids).Box(), solids)
    ensures b.velocityX >= 0.0 ==> TouchesRight(ResolveHorizontal(b, solids).Box(), solids)
  {
    var h := ResolveHorizontal(b, solids);
    var probe := HorizontalProbe(b);
    if b.velocityX < 0.0 {
      var c :| c in solids && Overlaps(probe, c) && h.left == c.Right() &&
        forall d :: d in solids && Overlaps(probe, d) ==> c.left <= d.left;
      var i :| 0 <= i < |solids| && solids[i] == c;
      assert LeftContact(h.Box(), solids[i]);
    } else {
      var c :| c in solids && Overlaps(probe, c) && h.left + h.width == c.left &&
        forall d :: d in solids && Overlaps(probe, d) ==> d.Right() <= c.Right();
      var i :| 0 <= i < |solids| && solids[i] == c;
      assert RightContact(h.Box(), solids[i]);
    }
  }

  /** The horizontal snap as written can leave the player inside a second solid:
      moving left it snaps to the solid that starts farthest left, not to the one
      whose right edge is nearest. Here the player starts clear of both solids
      and ends the horizontal phase overlapping the narrower one. */
  lemma HorizontalSnapCanOverlap(b: Body, wide: Rect, narrow: Rect)
    requires b == Body(100.0, 0.0, 100.0, 100.0, -10.0, 0.0)
    requires wide == Rect(0.0, 0.0, 92.0, 100.0) && narrow == Rect(50.0, 0.0, 45.0, 100.0)
    ensures !Overlaps(b.Box(), wide) && !Overlaps(b.Box(), narrow)
    ensures Overlaps(ResolveHorizontal(b, [wide, narrow]).Box(), narrow)
  {
    assert HorizontalProbe(b) == Rect(90.0, 0.0, 100.0, 100.0);
    SnapLeftOntoFirst(b, wide, narrow);
    assert ResolveHorizontal(b, [wide, narrow]).Box() == Rect(92.0, 0.0, 100.0, 100.0);
  }

  /** Moving left into two solids, the one starting farther left is the one
      snapped to, whatever the other's right edge. */
  lemma SnapLeftOntoFirst(b: Body, first: Rect, second: Rect)
    requires b.velocityX < 0.0 && first.left < second.left
    requires Overlaps(HorizontalProbe(b), first) && Overlaps(HorizontalProbe(b), second)
    ensures ResolveHorizontal(b, [first, second]) == b.(left := first.Right(), velocityX := -b.velocityX * BOUNCE)
  {
    var hits := Collisions(HorizontalProbe(b), [first, second]);
    assert hits == [first, second] by {
      assert [first, second][1..] == [second] && [second][1..] == [];
    }
    assert MinLeftCollider(hits) == first by {
      var c := MinLeftCollider(hits);
      assert c.left <= first.left by {
        assert first in hits;
      }
    }
  }

  /** Landing: after a downward collision the player rests exactly on the highest
      solid it hit, overlaps none of the solids it hit, and stands on ground. */
  lemma LandingRests(b: Body, solids: seq<Rect>)
    requires Collisions(VerticalProbe(b), solids) != [] && b.velocityY > 0.0
    ensures var v := ResolveVertical(b, solids);
      TouchesBottom(v.Box(), solids) &&
      forall d :: d in solids && Overlaps(VerticalProbe(b), d) ==> !Overlaps(v.Box(), d)
  {
    var v := ResolveVertical(b, solids);
    var probe := VerticalProbe(b);
    var c :| c in solids && Overlaps(probe, c) && v.top + v.height == c.top &&
      forall d :: d in solids && Overlaps(probe, d) ==> c.top <= d.top;
    var i :| 0 <= i < |solids| && solids[i] == c;
    assert BottomContact(v.Box(), solids[i]);
  }

  /** The landing bounce is a whole number, upward or zero, and strictly smaller
      in magnitude than half the falling speed. */
  lemma LandingVelocity(b: Body, solids: seq<Rect>)
    requires Collisions(VerticalProbe(b), solids) != [] && b.velocityY > 0.0
    ensures var vy := ResolveVertical(b, solids).velocityY;
      vy <= 0.0 && -b.velocityY * BOUNCE < vy && vy == vy.Floor as real
  {
    var m := Min(0.0, 1.0 - b.velocityY * BOUNCE);
    assert -b.velocityY * BOUNCE < m <= 0.0;
    assert m <= Ceil(m) as real < m + 1.0;
  }

  /** Hitting a ceiling: the player's top rests on the lowest solid it hit, it
      overlaps none of the solids it hit, and its vertical motion stops. */
  lemma CeilingStops(b: Body, solids: seq<Rect>)
    requires Collisions(VerticalProbe(b), solids) != [] && b.velocityY <= 0.0
    ensures var v := ResolveVertical(b, solids);
      v.velocityY == 0.0 &&
      forall d :: d in solids && Overlaps(VerticalProbe(b), d) ==> !Overlaps(v.Box(), d)
  {
  }

  /** A tick never makes the player faster horizontally than the larger of its
      walking speed and its decayed previous speed. */
  lemma TickSpeedBound(b: Body, solids: seq<Rect>, keys: set<string>)
    ensures Abs(Tick(b, solids, keys).velocityX) <= Max(SPEED, Abs(b.velocityX) * AIR_RESISTANCE)
  {
    var s := Steer(b, solids, keys);
    var h := ResolveHorizontal(s, solids);
    assert Abs(h.velocityX) <= Abs(s.velocityX);
  }

  /** A player standing still on ground, clear of every solid and with no key
      held, stays exactly where it is: friction zeroes its horizontal speed and
      gravity is not applied. */
  lemma RestIsStable(b: Body, solids: seq<Rect>, keys: set<string>)
    requires TouchesBottom(b.Box(), solids) && b.velocityY == 0.0
    requires !JumpHeld(keys) && !LeftHeld(keys) && !RightHeld(keys) && !DownHeld(keys)
    requires forall i :: 0 <= i < |solids| ==> !Overlaps(b.Box(), solids[i])
    ensures Tick(b, solids, keys) == b.(velocityX := 0.0)
  {
    var s := Steer(b, solids, keys);
    assert s == b.(velocityX := 0.0);
    assert HorizontalProbe(s) == b.Box();
    var h := ResolveHorizontal(s, solids);
    assert h == s;
    assert VerticalProbe(h) == b.Box();
  }

  /** Running right into a wall: the contact tick ends with the player's right
      edge on the wall. Holding right the bounce is -5; coasting, air resistance
      has already taken 1% off, so it is -4.95. */
  lemma WallBounce()
    ensures var b, wall := Body(395.0, 200.0, 100.0, 100.0, 10.0, 0.0), Rect(500.0, 0.0, 4.0, 1000.0);
      var held, coasting := Tick(b, [wall], {"d"}), Tick(b, [wall], {});
      held.left + held.width == 500.0 && held.velocityX == -5.0 &&
      coasting.left + coasting.width == 500.0 && coasting.velocityX == -4.95
  {
    var b, wall := Body(395.0, 200.0, 100.0, 100.0, 10.0, 0.0), Rect(500.0, 0.0, 4.0, 1000.0);
    assert !TouchesRight(b.Box(), [wall]) && !TouchesBottom(b.Box(), [wall]);
    var s := Steer(b, [wall], {"d"});
    assert s.velocityX == 10.0;
    assert Collisions(HorizontalProbe(s), [wall]) == [wall];
    var s' := Steer(b, [wall], {});
    assert s'.velocityX == 9.9;
    assert Collisions(HorizontalProbe(s'), [wall]) == [wall];
  }
}
