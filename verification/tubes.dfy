/**
  A tube as the recogniser finds it on screen: an identifier (its position in
  discovery order), an axis-aligned bounding box in pixel coordinates, and the
  colour units seen inside it. `Tube` in src/puzzle.rs and `ParsedTube` in
  src/recognition.rs are field-for-field the same record with the same
  methods, so both are this one datatype.
 */
module Tubes {

  /** A packed colour, one unit in a tube. */
  type Color = bv32

  /** 2^32: coordinates and sizes are unsigned 32-bit values. */
  const U32_LIMIT: nat := 0x1_0000_0000

  predicate IsU32(n: nat)
  {
    n < U32_LIMIT
  }

  datatype Tube = Tube(id: nat, x: nat, y: nat, width: nat, height: nat, colors: seq<Color>)

  /**
    The far edges `x + width` and `y + height` are themselves valid `u32`
    values, so the containment test can compute them without overflowing.
   */
  predicate EdgesFit(t: Tube)
  {
    IsU32(t.x + t.width) && IsU32(t.y + t.height)
  }

  /** A fresh tube: the given id and box, holding no colours yet. */
  function New(id: nat, x: nat, y: nat, width: nat, height: nat): (t: Tube)
    requires IsU32(x) && IsU32(y) && IsU32(width) && IsU32(height)
    ensures t.colors == []
    ensures t.id == id && t.x == x && t.y == y && t.width == width && t.height == height
  {
    Tube(id, x, y, width, height, [])
  }

  /** Whether the pixel (px, py) lies in the tube's box, edges included. */
  predicate Inside(t: Tube, px: nat, py: nat)
    requires EdgesFit(t)
  {
    px >= t.x && px <= t.x + t.width && py >= t.y && py <= t.y + t.height
  }

  /**
    Independent reading of the box: every point reached from the top-left
    corner (x, y) by a step of 0..width across and 0..height down.
   */
  ghost function Region(t: Tube): set<(nat, nat)>
  {
    set dx: nat, dy: nat | dx <= t.width && dy <= t.height :: Step(t, dx, dy)
  }

  /** The point reached from the top-left corner by dx across and dy down. */
  function Step(t: Tube, dx: nat, dy: nat): (point: (nat, nat))
  {
    (t.x + dx, t.y + dy)
  }

  /** The containment test accepts exactly the points of the region. */
  lemma InsideIffInRegion(t: Tube, px: nat, py: nat)
    requires EdgesFit(t)
    ensures Inside(t, px, py) <==> (px, py) in Region(t)
  {
    if Inside(t, px, py) {
      var dx: nat, dy: nat := px - t.x, py - t.y;
      assert Step(t, dx, dy) in Region(t);
    }
    if (px, py) in Region(t) {
      var dx: nat, dy: nat :| dx <= t.width && dy <= t.height && (px, py) == Step(t, dx, dy);
    }
  }

  /** All four corners of the box are inside: the test is inclusive on every edge. */
  lemma InsideCorners(t: Tube)
    requires EdgesFit(t)
    ensures Inside(t, t.x, t.y)
    ensures Inside(t, t.x + t.width, t.y + t.height)
    ensures Inside(t, t.x + t.width, t.y)
    ensures Inside(t, t.x, t.y + t.height)
  {
  }

  /** A point left of, right of, above or below the box is outside, whatever its other coordinate. */
  lemma OutsideBeyondEdges(t: Tube, px: nat, py: nat)
    requires EdgesFit(t)
    ensures px < t.x ==> !Inside(t, px, py)
    ensures px > t.x + t.width ==> !Inside(t, px, py)
    ensures py < t.y ==> !Inside(t, px, py)
    ensures py > t.y + t.height ==> !Inside(t, px, py)
  {
  }

  /** Tubes compare equal when their ids match; colours and geometry are ignored. */
  predicate SameTube(a: Tube, b: Tube)
  {
    a.id == b.id
  }

  /** The id comparison is an equivalence relation: reflexive, symmetric, transitive. */
  lemma SameTubeIsEquivalence(a: Tube, b: Tube, c: Tube)
    ensures SameTube(a, a)
    ensures SameTube(a, b) <==> SameTube(b, a)
    ensures SameTube(a, b) && SameTube(b, c) ==> SameTube(a, c)
  {
  }

  /**
    Equality sees nothing but the id: changing the colours and the box of a
    tube leaves it equal to itself, and a different id makes it unequal.
   */
  lemma SameTubeIgnoresContents(t: Tube, id: nat, x: nat, y: nat, width: nat, height: nat, colors: seq<Color>)
    ensures SameTube(t, Tube(id, x, y, width, height, colors)) <==> id == t.id
  {
  }

  /**
    The comparison is strictly coarser than structural equality: equal
    records compare equal, and two tubes with one id but different colours
    compare equal without being the same record.
   */
  lemma SameTubeCoarserThanIdentity(a: Tube, b: Tube)
    ensures a == b ==> SameTube(a, b)
    ensures var empty := New(0, 0, 0, 1, 1);
            var filled := empty.(colors := [0xBCBCBC]);
            SameTube(empty, filled) && empty != filled
  {
  }
}
