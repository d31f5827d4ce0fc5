/**
 * Grid coordinates, map bounds and the half-unit wall shift
 * (BuilderKitConfig.cs and the arithmetic parts of BlockManager.cs).
 *
 * Horizontal coordinates are kept in HALF units: a stored x of 3 is the
 * world coordinate 1.5. The vertical coordinate is a floor index: a stored
 * y of 2 is the world height 2 * FLOOR_HEIGHT.
 */
module Grid {

  /** BuilderKitConfig.NUMBER_OF_FLOORS */
  const NUMBER_OF_FLOORS: int := 4
  /** BuilderKitConfig.MAP_WIDTH */
  const MAP_WIDTH: int := 64
  /** BuilderKitConfig.MAP_HEIGHT */
  const MAP_HEIGHT: int := 64
  /** BuilderKitConfig.FLOOR_HEIGHT, in world units */
  const FLOOR_HEIGHT: real := 2.403474

  /** A grid position: x and z in half units, y a floor index. */
  datatype Pos = Pos(x: int, y: int, z: int)
  {
    function Plus(o: Pos): Pos {
      Pos(x + o.x, y + o.y, z + o.z)
    }
  }

  /** The four yaw angles Unity reports for objects rotated by whole quarter turns. */
  type Yaw = a: int | a == 0 || a == 90 || a == 180 || a == 270

  /** One whole world unit, in half units. */
  const UNIT: int := 2

  function Abs(v: int): nat {
    if v < 0 then -v else v
  }

  /** A half-unit coordinate that lies on a whole world unit. */
  predicate IsWhole(v: int) {
    v % 2 == 0
  }

  /** The largest |x| in bounds, in half units: (MAP_WIDTH / 2 - 1) world units. */
  const MAX_X: int := UNIT * (MAP_WIDTH / 2 - 1)
  /** The largest |z| in bounds, in half units: (MAP_HEIGHT / 2 - 1) world units. */
  const MAX_Z: int := UNIT * (MAP_HEIGHT / 2 - 1)

  /**
   * BlockManager.IsBlockPositionValid: inside the map, one unit away from
   * its edge, and between the ground and FLOOR_HEIGHT * NUMBER_OF_FLOORS.
   */
  predicate IsBlockPositionValid(p: Pos) {
    Abs(p.x) <= MAX_X && Abs(p.z) <= MAX_Z && 0 <= p.y <= NUMBER_OF_FLOORS
  }

  /** BlockManager.IsAreaValid: a rectangle is in bounds when both corners are. */
  predicate IsAreaValid(start: Pos, end: Pos) {
    IsBlockPositionValid(start) && IsBlockPositionValid(end)
  }

  /** The world-unit reading of the bounds check. */
  lemma BoundsInWorldUnits(p: Pos)
    ensures IsBlockPositionValid(p) <==>
      (-62 <= p.x <= 62 && -62 <= p.z <= 62 && 0 <= p.y <= 4)
  {
  }

  /**
   * Every position between two in-bounds corners is in bounds too, which is
   * what lets IsAreaValid look at the corners only.
   */
  lemma AreaValidCoversRectangle(start: Pos, end: Pos, p: Pos)
    requires IsAreaValid(start, end)
    requires Between(p.x, start.x, end.x) && Between(p.z, start.z, end.z)
    requires Between(p.y, start.y, end.y)
    ensures IsBlockPositionValid(p)
  {
  }

  predicate Between(v: int, a: int, b: int) {
    (a <= v <= b) || (b <= v <= a)
  }

  /**
   * BlockManager.GetWallPosition: walls live on the half-unit edge of a
   * cell, on the side the yaw faces.
   */
  function WallPosition(p: Pos, yaw: Yaw): (r: Pos)
    ensures r.y == p.y
    ensures Abs(r.x - p.x) + Abs(r.z - p.z) == 1
    ensures yaw == 0 || yaw == 180 ==> r.z == p.z
    ensures yaw == 90 || yaw == 270 ==> r.x == p.x
  {
    match yaw
    case 0 => Pos(p.x + 1, p.y, p.z)
    case 180 => Pos(p.x - 1, p.y, p.z)
    case 90 => Pos(p.x, p.y, p.z - 1)
    case 270 => Pos(p.x, p.y, p.z + 1)
  }

  /** Facing yaws: the yaw that looks at the same edge from the neighbouring cell. */
  function Opposite(yaw: Yaw): Yaw {
    match yaw
    case 0 => 180
    case 180 => 0
    case 90 => 270
    case 270 => 90
  }

  /** The unit step a yaw faces, as a position offset. */
  function Facing(yaw: Yaw): Pos {
    match yaw
    case 0 => Pos(UNIT, 0, 0)
    case 180 => Pos(-UNIT, 0, 0)
    case 90 => Pos(0, 0, -UNIT)
    case 270 => Pos(0, 0, UNIT)
  }

  /**
   * Two neighbouring cells that face each other share one wall edge: the
   * wall position of p at yaw equals that of the cell in front of p at the
   * opposite yaw.
   */
  lemma SharedWallEdge(p: Pos, yaw: Yaw)
    ensures WallPosition(p, yaw) == WallPosition(p.Plus(Facing(yaw)), Opposite(yaw))
  {
  }

  /**
   * Wall positions never lie on a cell: exactly one horizontal coordinate of
   * a wall position of a whole cell is a half unit.
   */
  lemma WallPositionIsOnAnEdge(p: Pos, yaw: Yaw)
    requires IsWhole(p.x) && IsWhole(p.z)
    ensures IsWhole(WallPosition(p, yaw).x) != IsWhole(WallPosition(p, yaw).z)
  {
  }

  /** Mathf.Ceil of a half-unit coordinate, in half units. */
  function CeilWhole(v: int): (r: int)
    ensures IsWhole(r)
    ensures v <= r < v + UNIT
  {
    if v % 2 == 0 then v else v + 1
  }

  /** The position one floor below. */
  function Below(p: Pos): Pos {
    Pos(p.x, p.y - 1, p.z)
  }
}
