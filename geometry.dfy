/** Axis-aligned rectangles in screen coordinates (origin top-left, Y grows
    downward) and the collision query the scene answers for the player. */
module Geometry {

  /** The placement and size of a solid rectangle. */
  datatype Rect = Rect(left: real, top: real, width: real, height: real) {
    function Right(): real { left + width }
    function Bottom(): real { top + height }

    /** The same rectangle with its top-left corner moved to (l, t). */
    function MoveTo(l: real, t: real): (r: Rect)
      ensures r.left == l && r.top == t
      ensures r.width == width && r.height == height
    {
      this.(left := l, top := t)
    }
  }

  /** Open-interval overlap: rectangles that only share an edge do not overlap. */
  predicate Overlaps(a: Rect, b: Rect) {
    a.left < b.Right() && a.Right() > b.left && a.top < b.Bottom() && a.Bottom() > b.top
  }

  /** The solids a probe rectangle runs into, in the order the scene lists them.
      The scene's `CollidesWith` has no body among the modelled files; this is the
      behaviour the player relies on: every solid other than the player itself
      that strictly overlaps the probe. */
  function Collisions(probe: Rect, solids: seq<Rect>): (hits: seq<Rect>)
    ensures |hits| <= |solids|
    ensures forall r :: r in hits <==> r in solids && Overlaps(probe, r)
    ensures hits == [] <==> forall i :: 0 <= i < |solids| ==> !Overlaps(probe, solids[i])
  {
    if solids == [] then []
    else
      var rest := Collisions(probe, solids[1..]);
      assert forall i :: 1 <= i < |solids| ==> solids[i] == solids[1..][i - 1];
      if Overlaps(probe, solids[0]) then [solids[0]] + rest else rest
  }

  /** `f` lists, in increasing order, positions below `n`. */
  predicate IncreasingIndices(f: seq<nat>, n: nat) {
    (forall k :: 0 <= k < |f| ==> f[k] < n) &&
    (forall j, k :: 0 <= j < k < |f| ==> f[j] < f[k])
  }

  /** Every position moved one place on. */
  function Shift(g: seq<nat>): (h: seq<nat>)
    ensures |h| == |g| && forall k :: 0 <= k < |g| ==> h[k] == g[k] + 1
  {
    seq(|g|, k requires 0 <= k < |g| => g[k] + 1)
  }

  /** The positions in `solids` of the solids the probe overlaps. */
  function HitPositions(probe: Rect, solids: seq<Rect>): seq<nat>
  {
    if solids == [] then []
    else
      var rest := Shift(HitPositions(probe, solids[1..]));
      if Overlaps(probe, solids[0]) then [0] + rest else rest
  }

  /** The hit positions pick out exactly the hits, one position per hit. */
  lemma {:induction false} HitPositionsSelect(probe: Rect, solids: seq<Rect>)
    ensures var hits, f := Collisions(probe, solids), HitPositions(probe, solids);
      |f| == |hits| && forall k :: 0 <= k < |f| ==> f[k] < |solids| && hits[k] == solids[f[k]]
  {
    if solids != [] {
      var rest := solids[1..];
      HitPositionsSelect(probe, rest);
      var tail, g := Collisions(probe, rest), HitPositions(probe, rest);
      forall k | 0 <= k < |g| ensures Shift(g)[k] < |solids| && tail[k] == solids[Shift(g)[k]] {
        assert rest[g[k]] == solids[g[k] + 1];
      }
    }
  }

  /** The hit positions rise strictly, so hits keep the scene's order. */
  lemma {:induction false} HitPositionsIncreasing(probe: Rect, solids: seq<Rect>)
    ensures IncreasingIndices(HitPositions(probe, solids), |solids|)
  {
    if solids != [] {
      HitPositionsIncreasing(probe, solids[1..]);
    }
  }

  /** No overlapping solid is missing from the hit positions. */
  lemma {:induction false} HitPositionsComplete(probe: Rect, solids: seq<Rect>, i: nat)
    requires i < |solids| && Overlaps(probe, solids[i])
    ensures i in HitPositions(probe, solids)
  {
    if i > 0 {
      var rest := solids[1..];
      assert rest[i - 1] == solids[i];
      HitPositionsComplete(probe, rest, i - 1);
      var g := HitPositions(probe, rest);
      var k :| 0 <= k < |g| && g[k] == i - 1;
      assert Shift(g)[k] == i;
    }
  }

  /** The hits keep the scene's order and multiplicity: they are the solids at
      a strictly increasing list of positions that misses no overlapping solid. */
  lemma CollisionsInOrder(probe: Rect, solids: seq<Rect>)
    ensures var hits, f := Collisions(probe, solids), HitPositions(probe, solids);
      IncreasingIndices(f, |solids|) && |f| == |hits| &&
      (forall k :: 0 <= k < |f| ==> hits[k] == solids[f[k]]) &&
      (forall i :: 0 <= i < |solids| && Overlaps(probe, solids[i]) ==> i in f)
  {
    HitPositionsSelect(probe, solids);
    HitPositionsIncreasing(probe, solids);
    forall i | 0 <= i < |solids| && Overlaps(probe, solids[i])
      ensures i in HitPositions(probe, solids)
    {
      HitPositionsComplete(probe, solids, i);
    }
  }

  /** Where a `reduce` that keeps `prev` exactly when key(prev) < key(current)
      ends: at an element of least key, and at the LAST one of them (on a tie
      the later element replaces the earlier). */
  function LastMinIndex(cs: seq<Rect>, key: Rect -> real): (k: nat)
    requires |cs| > 0
    ensures k < |cs|
    ensures forall j :: 0 <= j < |cs| ==> key(cs[k]) <= key(cs[j])
    ensures forall j :: k < j < |cs| ==> key(cs[k]) < key(cs[j])
  {
    if |cs| == 1 then 0
    else
      var prev := LastMinIndex(cs[..|cs| - 1], key);
      if key(cs[prev]) < key(cs[|cs| - 1]) then prev else |cs| - 1
  }
}
