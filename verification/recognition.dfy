/**
  The pure steps of the screenshot scan. The scan walks the picture row by
  row; a pixel that already lies in a known tube's box is skipped, and a
  pixel of the marker colour anchors a new tube whose box is placed at a
  fixed offset from it.
 */
module Recognition {
  import opened Tubes
  import opened Wrappers

  /** Offset from the marker pixel to the top-left corner of the tube's box. */
  const MARKER_DX: nat := 11
  const MARKER_DY: nat := 3

  /** Every tube box the scan creates has this size. */
  const TUBE_WIDTH: nat := 134
  const TUBE_HEIGHT: nat := 479

  /** Every tube's far edges are representable, so each containment test is defined. */
  predicate AllEdgesFit(tubes: seq<Tube>)
  {
    forall k | 0 <= k < |tubes| :: EdgesFit(tubes[k])
  }

  /** Whether the pixel (px, py) lies in the box of some tube already found. */
  method Covered(tubes: seq<Tube>, px: nat, py: nat) returns (skip: bool)
    requires AllEdgesFit(tubes)
    ensures skip <==> exists k | 0 <= k < |tubes| :: Inside(tubes[k], px, py)
  {
    for k := 0 to |tubes|
      invariant forall m | 0 <= m < k :: !Inside(tubes[m], px, py)
    {
      if Inside(tubes[k], px, py) {
        return true;
      }
    }
    return false;
  }

  /**
    The tube anchored at a marker pixel: it gets the next id and a box whose
    corner sits MARKER_DX left of and MARKER_DY above the pixel. The two
    unsigned subtractions have no value when the pixel is too close to the
    left or top border of the picture; that is `None` here.
   */
  function Anchor(id: nat, px: nat, py: nat): (r: Option<Tube>)
    requires IsU32(px) && IsU32(py)
    ensures r.None? <==> px < MARKER_DX || py < MARKER_DY
    ensures r.Some? ==> r.value.id == id && r.value.colors == []
    ensures r.Some? ==> r.value.x == px - MARKER_DX && r.value.y == py - MARKER_DY
    ensures r.Some? ==> r.value.width == TUBE_WIDTH && r.value.height == TUBE_HEIGHT
    ensures r.Some? && EdgesFit(r.value) ==> Inside(r.value, px, py)
  {
    if px < MARKER_DX || py < MARKER_DY then
      None
    else
      Some(New(id, px - MARKER_DX, py - MARKER_DY, TUBE_WIDTH, TUBE_HEIGHT))
  }

  /**
    Once the anchored tube is recorded, every later containment test over
    the extended list is still defined, and every pixel of the new box, the
    marker pixel and the rest of the outline below it included, lies in some
    tube of the list, so the scan skips it and never anchors a second tube
    inside the first.
   */
  lemma AnchorCoversBox(tubes: seq<Tube>, px: nat, py: nat)
    requires AllEdgesFit(tubes)
    requires IsU32(px + TUBE_WIDTH) && IsU32(py + TUBE_HEIGHT)
    requires px >= MARKER_DX && py >= MARKER_DY
    ensures Anchor(|tubes|, px, py).Some?
    ensures var t := Anchor(|tubes|, px, py).value;
            var found := tubes + [t];
            && AllEdgesFit(found)
            && (exists k | 0 <= k < |found| :: Inside(found[k], px, py))
            && forall q | q in Region(t) :: exists k | 0 <= k < |found| :: Inside(found[k], q.0, q.1)
  {
    var t := Anchor(|tubes|, px, py).value;
    var found := tubes + [t];
    assert found[|tubes|] == t;
    assert EdgesFit(t);
    forall q | q in Region(t)
      ensures exists k | 0 <= k < |found| :: Inside(found[k], q.0, q.1)
    {
      InsideIffInRegion(t, q.0, q.1);
      assert Inside(found[|tubes|], q.0, q.1);
    }
  }
}
