/**
 * Roof.cs: a roof is stretched over the dragged area. It never reads or
 * writes the block store; its placement is a position and a scale in
 * world units, computed from the two corners of the drag.
 */
module Roofs {
  import opened Grid

  /** A Vector3 in world units. */
  datatype Vec3 = Vec3(x: real, y: real, z: real)

  /** The new roof instance: where it is put and how it is scaled. */
  datatype RoofPlacement = RoofPlacement(position: Vec3, scale: Vec3)

  function AbsReal(r: real): real {
    if r < 0.0 then -r else r
  }

  function MinReal(a: real, b: real): real {
    if a <= b then a else b
  }

  /** Roof.IsValidLocation: a roof can be placed anywhere. */
  predicate IsValidLocation(start: Vec3, end: Vec3) {
    true
  }

  /** The roof's extent along one axis: the dragged distance plus one. */
  function Span(a: real, b: real): real {
    AbsReal(b - a) + 1.0
  }

  /**
   * The roof's height: 0.3 of its shorter side, cut down to maxElevation
   * when above it, otherwise raised to 1 when below 1.
   */
  function Height(xSize: real, zSize: real, maxElevation: real): real {
    var ySize := MinReal(zSize, xSize) * 0.3;
    if ySize > maxElevation then maxElevation
    else if ySize < 1.0 then 1.0
    else ySize
  }

  /**
   * Roof.Place: one roof at the midpoint of the drag raised by a fifth of
   * its height, scaled to the dragged area; the x and z extents are
   * swapped unless the roof is turned by 0 or 180 degrees.
   */
  function Place(start: Vec3, end: Vec3, yaw: Yaw, maxElevation: real): (placed: seq<RoofPlacement>)
    ensures |placed| == 1
    ensures placed[0].scale.x >= 1.0 && placed[0].scale.z >= 1.0
    ensures maxElevation >= 1.0 ==> 1.0 <= placed[0].scale.y <= maxElevation
  {
    if IsValidLocation(start, end) then
      var xSize := Span(start.x, end.x);
      var zSize := Span(start.z, end.z);
      var ySize := Height(xSize, zSize, maxElevation);
      var middle := Vec3((end.x + start.x) / 2.0, (end.y + start.y) / 2.0 + ySize * 0.2, (end.z + start.z) / 2.0);
      var scale := if yaw == 0 || yaw == 180 then Vec3(xSize, ySize, zSize) else Vec3(zSize, ySize, xSize);
      [RoofPlacement(middle, scale)]
    else []
  }

  // ---------------------------------------------------------------------
  // Properties

  /**
   * With maxElevation below 1 the clamp is not monotone: the height is
   * maxElevation when 0.3 of the shorter side exceeds it and 1 otherwise,
   * so it can exceed maxElevation.
   */
  lemma HeightBelowOneCap(start: Vec3, end: Vec3, maxElevation: real)
    requires maxElevation < 1.0
    ensures var h := Height(Span(start.x, end.x), Span(start.z, end.z), maxElevation);
      (h == maxElevation || h == 1.0)
      && (h == 1.0 <==> MinReal(Span(start.z, end.z), Span(start.x, end.x)) * 0.3 <= maxElevation)
  {
  }

  /** The roof does not depend on which corner the drag started from. */
  lemma DragDirectionIrrelevant(start: Vec3, end: Vec3, yaw: Yaw, maxElevation: real)
    ensures Place(start, end, yaw, maxElevation) == Place(end, start, yaw, maxElevation)
  {
  }

  /**
   * The roof sits over the middle of the dragged area, between its corners,
   * raised above their mean height by a fifth of its own height.
   */
  lemma RoofCentredOnDrag(start: Vec3, end: Vec3, yaw: Yaw, maxElevation: real)
    ensures var r := Place(start, end, yaw, maxElevation)[0];
      && MinReal(start.x, end.x) <= r.position.x <= MinReal(start.x, end.x) + AbsReal(end.x - start.x)
      && MinReal(start.z, end.z) <= r.position.z <= MinReal(start.z, end.z) + AbsReal(end.z - start.z)
      && r.position.x - start.x == end.x - r.position.x
      && r.position.z - start.z == end.z - r.position.z
      && r.position.y == (start.y + end.y) / 2.0 + r.scale.y / 5.0
  {
  }

  /**
   * Turning a roof a quarter turn swaps its x and z extents and keeps its
   * height and place; the covered area, (|dx| + 1)(|dz| + 1), is the same
   * at every yaw.
   */
  lemma QuarterTurnSwapsExtents(start: Vec3, end: Vec3, yaw: Yaw, maxElevation: real)
    requires yaw == 90 || yaw == 270
    ensures var turned := Place(start, end, yaw, maxElevation)[0];
      var straight := Place(start, end, 0, maxElevation)[0];
      && turned.position == straight.position
      && turned.scale == Vec3(straight.scale.z, straight.scale.y, straight.scale.x)
      && turned.scale.x * turned.scale.z == Span(start.x, end.x) * Span(start.z, end.z)
  {
  }
}
