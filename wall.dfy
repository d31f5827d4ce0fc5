/**
 * Wall.cs: walls sit on the half-unit edge a cell's yaw faces, are placed
 * one at a time or along a straight run, and above the ground floor need a
 * record under them or a tile beside them.
 */
module Walls {
  import opened Wrappers
  import opened Grid
  import opened Occupancy
  import opened Scenes
  import opened BlockStore
  import opened Floors
  import opened Placeables

  // ---------------------------------------------------------------------
  // Runs

  /** The unit step from a toward b (toward lower values when they are equal). */
  function Dir(a: int, b: int): int {
    if a < b then UNIT else -UNIT
  }

  /** The cells from c to x = toX inclusive, one unit apart along x. */
  function RunX(c: Pos, toX: int): seq<Pos>
    requires IsWhole(toX - c.x)
    decreases Abs(toX - c.x)
  {
    if c.x == toX then [c] else [c] + RunX(Pos(c.x + Dir(c.x, toX), c.y, c.z), toX)
  }

  /** The cells from c to z = toZ inclusive, one unit apart along z. */
  function RunZ(c: Pos, toZ: int): seq<Pos>
    requires IsWhole(toZ - c.z)
    decreases Abs(toZ - c.z)
  {
    if c.z == toZ then [c] else [c] + RunZ(Pos(c.x, c.y, c.z + Dir(c.z, toZ)), toZ)
  }

  lemma {:induction false} RunXCells(c: Pos, toX: int, p: Pos)
    requires IsWhole(toX - c.x)
    ensures p in RunX(c, toX) <==> p.y == c.y && p.z == c.z && Between(p.x, c.x, toX) && IsWhole(p.x - c.x)
    ensures |RunX(c, toX)| == Abs(toX - c.x) / UNIT + 1
    decreases Abs(toX - c.x)
  {
    if c.x != toX {
      var n := Pos(c.x + Dir(c.x, toX), c.y, c.z);
      assert RunX(c, toX) == [c] + RunX(n, toX);
      assert IsWhole(p.x - n.x) <==> IsWhole(p.x - c.x);
      assert Abs(toX - c.x) == Abs(toX - n.x) + UNIT;
      RunXCells(n, toX, p);
    }
  }

  lemma {:induction false} RunZCells(c: Pos, toZ: int, p: Pos)
    requires IsWhole(toZ - c.z)
    ensures p in RunZ(c, toZ) <==> p.y == c.y && p.x == c.x && Between(p.z, c.z, toZ) && IsWhole(p.z - c.z)
    ensures |RunZ(c, toZ)| == Abs(toZ - c.z) / UNIT + 1
    decreases Abs(toZ - c.z)
  {
    if c.z != toZ {
      var n := Pos(c.x, c.y, c.z + Dir(c.z, toZ));
      assert RunZ(c, toZ) == [c] + RunZ(n, toZ);
      assert IsWhole(p.z - n.z) <==> IsWhole(p.z - c.z);
      assert Abs(toZ - c.z) == Abs(toZ - n.z) + UNIT;
      RunZCells(n, toZ, p);
    }
  }

  /** Start and end lie on one line along x or along z. */
  predicate Straight(start: Pos, end: Pos) {
    start.x == end.x || start.z == end.z
  }

  /**
   * The loops of IsValidLocation and Place step by whole units from start
   * and stop on reaching end exactly: for a straight run the varying
   * coordinate must be whole at both ends.
   */
  predicate Steppable(start: Pos, end: Pos) {
    start == end || !Straight(start, end) ||
    (if start.x == end.x then IsWhole(start.z) && IsWhole(end.z) else IsWhole(start.x) && IsWhole(end.x))
  }

  /** The cells of a straight run, in the order Place visits them: along x when z agrees, else along z. */
  function LineCells(start: Pos, end: Pos): seq<Pos>
    requires Steppable(start, end) && Straight(start, end) && start != end
  {
    if start.z == end.z then RunX(start, end.x) else RunZ(start, end.z)
  }

  /**
   * A straight run covers every cell from start to end inclusive: |Δ| + 1
   * cells for a distance of |Δ| units.
   */
  lemma LineCellsCount(start: Pos, end: Pos)
    requires Steppable(start, end) && Straight(start, end) && start != end
    ensures start.z == end.z ==> |LineCells(start, end)| == Abs(end.x - start.x) / UNIT + 1
    ensures start.z != end.z ==> |LineCells(start, end)| == Abs(end.z - start.z) / UNIT + 1
    ensures start in LineCells(start, end)
  {
    if start.z == end.z {
      RunXCells(start, end.x, start);
    } else {
      RunZCells(start, end.z, start);
    }
  }

  // ---------------------------------------------------------------------
  // Validity

  /** Wall.IsBlockTiled: a record with any floor tile, the blocker included. */
  predicate Tiled(s: Store, p: Pos) {
    p in s && s[p].floorTile != NoTile
  }

  /**
   * Wall.IsFloating: above the ground floor, a wall with no record at its
   * wall position on the floor below needs a tile one unit to either side
   * across its face: along z unless its yaw is 0, along x when it is.
   */
  predicate WallFloats(s: Store, activeFloor: int, yaw: Yaw, p: Pos) {
    && activeFloor != 0
    && WallPosition(Pos(p.x, activeFloor - 1, p.z), yaw) !in s
    && if yaw != 0 then !Tiled(s, Pos(p.x, p.y, p.z - UNIT)) && !Tiled(s, Pos(p.x, p.y, p.z + UNIT))
       else !Tiled(s, Pos(p.x - UNIT, p.y, p.z)) && !Tiled(s, Pos(p.x + UNIT, p.y, p.z))
  }

  /** The wall position of p holds no record, or one with neither a wall nor an object. */
  predicate SpotFree(s: Store, yaw: Yaw, p: Pos) {
    var k := WallPosition(p, yaw);
    k !in s || (s[k].wall.None? && s[k].blockObject.None?)
  }

  /** One cell of a wall placement is acceptable. */
  predicate CellOk(s: Store, activeFloor: int, yaw: Yaw, p: Pos) {
    SpotFree(s, yaw, p) && !WallFloats(s, activeFloor, yaw, p)
  }

  /** Every cell of a run is acceptable. */
  predicate AllOk(s: Store, activeFloor: int, yaw: Yaw, cells: seq<Pos>) {
    cells == [] || (CellOk(s, activeFloor, yaw, cells[0]) && AllOk(s, activeFloor, yaw, cells[1..]))
  }

  lemma {:induction false} AllOkMeansEach(s: Store, activeFloor: int, yaw: Yaw, cells: seq<Pos>, p: Pos)
    requires AllOk(s, activeFloor, yaw, cells) && p in cells
    ensures CellOk(s, activeFloor, yaw, p)
  {
    if cells[0] != p {
      assert p in cells[1..];
      AllOkMeansEach(s, activeFloor, yaw, cells[1..], p);
    }
  }

  /**
   * Wall.IsValidLocation: a single cell must be in bounds and acceptable; a
   * run must be straight, every cell of it acceptable, and both ends in
   * bounds.
   */
  predicate ValidWallLocation(s: Store, activeFloor: int, yaw: Yaw, start: Pos, end: Pos)
    requires Steppable(start, end)
  {
    if start == end then IsBlockPositionValid(start) && CellOk(s, activeFloor, yaw, end)
    else Straight(start, end) && AllOk(s, activeFloor, yaw, LineCells(start, end)) && IsAreaValid(start, end)
  }

  /** On the ground floor no wall floats. */
  lemma GroundFloorWallNeverFloats(s: Store, yaw: Yaw, p: Pos)
    ensures !WallFloats(s, 0, yaw, p)
  {
  }

  /**
   * Above the ground floor the mere presence of a record at the wall
   * position below supports a wall, even a record with every channel empty.
   */
  lemma EmptyRecordBelowSupports(s: Store, activeFloor: int, yaw: Yaw, p: Pos)
    requires WallPosition(Pos(p.x, activeFloor - 1, p.z), yaw) in s
    requires s[WallPosition(Pos(p.x, activeFloor - 1, p.z), yaw)] == EmptyCell
    ensures !WallFloats(s, activeFloor, yaw, p)
  {
  }

  /** A blocker tile beside a wall supports it like a placed tile does. */
  lemma BlockerBesideSupports(s: Store, activeFloor: int, yaw: Yaw, p: Pos)
    requires yaw != 0 && Pos(p.x, p.y, p.z + UNIT) in s && s[Pos(p.x, p.y, p.z + UNIT)].floorTile == Blocker
    ensures !WallFloats(s, activeFloor, yaw, p)
  {
  }

  /** A request whose corners differ in both x and z is never valid. */
  lemma DiagonalIsInvalid(s: Store, activeFloor: int, yaw: Yaw, start: Pos, end: Pos)
    requires start.x != end.x && start.z != end.z
    ensures !ValidWallLocation(s, activeFloor, yaw, start, end)
  {
  }

  /**
   * A valid run is free and supported at every cell from start to end
   * inclusive, each one unit apart.
   */
  lemma ValidRunIsFreeThroughout(s: Store, activeFloor: int, yaw: Yaw, start: Pos, end: Pos, p: Pos)
    requires Steppable(start, end) && start != end && ValidWallLocation(s, activeFloor, yaw, start, end)
    requires p.y == start.y
    requires start.z == end.z ==> p.z == start.z && Between(p.x, start.x, end.x) && IsWhole(p.x - start.x)
    requires start.z != end.z ==> p.x == start.x && Between(p.z, start.z, end.z) && IsWhole(p.z - start.z)
    ensures CellOk(s, activeFloor, yaw, p)
  {
    if start.z == end.z {
      RunXCells(start, end.x, p);
    } else {
      RunZCells(start, end.z, p);
    }
    AllOkMeansEach(s, activeFloor, yaw, LineCells(start, end), p);
  }

  // ---------------------------------------------------------------------
  // Placing, as functions of the world

  /**
   * Wall.PutWall: a copy of the selected wall at p, under the active floor,
   * recorded in the wall channel of p's wall position for the wall's yaw.
   */
  function PutWallSpec(w: World, original: ObjId, floor: ObjId, p: Pos): World
    requires original in w.objects
  {
    var id := w.nextId;
    World(Occupancy.PutWall(w.cells, p, w.objects[original].yaw, id),
          w.objects[id := w.objects[original].(parent := Some(floor), position := p)],
          id + 1)
  }

  /** PutWall at each cell, in order. */
  function PutWalls(w: World, original: ObjId, floor: ObjId, cells: seq<Pos>): (r: World)
    requires original in w.objects && original < w.nextId
    ensures original in r.objects && r.objects[original] == w.objects[original]
    ensures r.nextId == w.nextId + |cells|
    decreases |cells|
  {
    if cells == [] then w
    else PutWalls(PutWallSpec(w, original, floor, cells[0]), original, floor, cells[1..])
  }

  /**
   * Wall.Place: nothing unless the location is valid; then one wall at end
   * for a single cell, or one per cell of the run.
   */
  function PlaceSpec(w: World, original: ObjId, floor: ObjId, activeFloor: int, start: Pos, end: Pos): World
    requires original in w.objects && original < w.nextId && Steppable(start, end)
  {
    if !ValidWallLocation(w.cells, activeFloor, w.objects[original].yaw, start, end) then w
    else if start == end then PutWalls(w, original, floor, [end])
    else PutWalls(w, original, floor, LineCells(start, end))
  }

  /** How many walls Wall.Place puts down. */
  function PlacedCount(s: Store, activeFloor: int, yaw: Yaw, start: Pos, end: Pos): nat
    requires Steppable(start, end)
  {
    if !ValidWallLocation(s, activeFloor, yaw, start, end) then 0
    else if start == end then 1
    else |LineCells(start, end)|
  }

  /**
   * Wall.Place when the active floor is outside the floor array: over a
   * valid location the first PutWall copies the wall to start and then
   * AssignToCurrentFloor raises, before the store is written; over an
   * invalid one nothing happens.
   */
  function PlaceRaising(w: World, original: ObjId, activeFloor: int, start: Pos, end: Pos): (World, bool)
    requires original in w.objects && Steppable(start, end)
  {
    if !ValidWallLocation(w.cells, activeFloor, w.objects[original].yaw, start, end) then (w, false)
    else (Stranded(w, original, start), true)
  }

  /**
   * A raising Wall.Place never writes the store; it raises exactly over a
   * valid location, leaving one parentless copy at start, the cell a single
   * wall or a run begins with.
   */
  lemma PlaceRaisingEffect(w: World, original: ObjId, activeFloor: int, start: Pos, end: Pos)
    requires original in w.objects && Steppable(start, end) && forall c | c in w.objects :: c < w.nextId
    ensures var (r, raised) := PlaceRaising(w, original, activeFloor, start, end);
      && r.cells == w.cells
      && (raised <==> ValidWallLocation(w.cells, activeFloor, w.objects[original].yaw, start, end))
      && (raised ==> r.objects == w.objects[w.nextId := w.objects[original].(parent := None, position := start)]
                     && r.nextId == w.nextId + 1)
      && (!raised ==> r == w)
      && (raised && start != end ==> start == LineCells(start, end)[0])
  {
  }

  /**
   * What placing walls does: each listed cell's wall position holds one of
   * the new walls, tile and object channels are untouched everywhere, and
   * every record that is not a listed cell's wall position is unchanged.
   */
  lemma {:induction false} PutWallsEffect(w: World, original: ObjId, floor: ObjId, cells: seq<Pos>, q: Pos)
    requires original in w.objects && original < w.nextId
    ensures var r := PutWalls(w, original, floor, cells);
      var yaw := w.objects[original].yaw;
      && (forall i | 0 <= i < |cells| :: q == WallPosition(cells[i], yaw) ==>
            q in r.cells && r.cells[q].wall.Some? && w.nextId <= r.cells[q].wall.value < r.nextId)
      && CellAt(r.cells, q).floorTile == CellAt(w.cells, q).floorTile
      && CellAt(r.cells, q).blockObject == CellAt(w.cells, q).blockObject
      && ((forall i | 0 <= i < |cells| :: q != WallPosition(cells[i], yaw)) ==>
            CellAt(r.cells, q) == CellAt(w.cells, q) && (q in r.cells <==> q in w.cells))
    decreases |cells|
  {
    if cells != [] {
      var yaw := w.objects[original].yaw;
      var w1 := PutWallSpec(w, original, floor, cells[0]);
      PutWallsEffect(w1, original, floor, cells[1..], q);
      var r := PutWalls(w, original, floor, cells);
      forall i | 0 <= i < |cells| && q == WallPosition(cells[i], yaw)
        ensures q in r.cells && r.cells[q].wall.Some? && w.nextId <= r.cells[q].wall.value < r.nextId
      {
        if i > 0 {
          assert cells[1..][i - 1] == cells[i];
        } else if forall j | 0 <= j < |cells[1..]| :: q != WallPosition(cells[1..][j], yaw) {
          assert q in w1.cells && w1.cells[q].wall == Some(w.nextId);
        } else {
          var j :| 0 <= j < |cells[1..]| && q == WallPosition(cells[1..][j], yaw);
          assert cells[1..][j] == cells[j + 1];
        }
      }
      if forall i | 0 <= i < |cells| :: q != WallPosition(cells[i], yaw) {
        forall j | 0 <= j < |cells[1..]|
          ensures q != WallPosition(cells[1..][j], yaw)
        {
          assert cells[1..][j] == cells[j + 1];
        }
      }
    }
  }

  lemma PutWallsCons(w: World, original: ObjId, floor: ObjId, c: Pos, rest: seq<Pos>)
    requires original in w.objects && original < w.nextId
    ensures PutWalls(w, original, floor, [c] + rest) == PutWalls(PutWallSpec(w, original, floor, c), original, floor, rest)
  {
    assert ([c] + rest)[0] == c && ([c] + rest)[1..] == rest;
  }

  /** Wall.PickUp on the store: the wall channel at the wall position emptied, if there is a record. */
  function ClearWall(s: Store, k: Pos): Store {
    if k in s then s[k := s[k].(wall := None)] else s
  }

  /**
   * Picking a wall up after placing it on a free spot gives every position
   * back its old contents (an absent record reads as an empty one).
   */
  lemma PlaceThenPickUpRestores(s: Store, activeFloor: int, yaw: Yaw, p: Pos, id: ObjId, q: Pos)
    requires SpotFree(s, yaw, p)
    ensures CellAt(ClearWall(Occupancy.PutWall(s, p, yaw, id), WallPosition(p, yaw)), q) == CellAt(s, q)
  {
  }

  /** After a wall is placed its spot is taken, so the same single-cell placement is refused. */
  lemma PlacedSpotIsTaken(s: Store, activeFloor: int, yaw: Yaw, p: Pos, id: ObjId)
    ensures !ValidWallLocation(Occupancy.PutWall(s, p, yaw, id), activeFloor, yaw, p, p)
  {
  }

  // ---------------------------------------------------------------------
  // Methods

  /** Wall.IsBlockTiled */
  function IsBlockTiled(bm: BlockManager, p: Pos): (r: bool)
    reads bm, bm.blocks.Values
    requires bm.Valid()
    ensures r == Tiled(bm.Cells(), p)
  {
    var b := bm.Lookup(p);
    b != null && b.floorTile != NoTile
  }

  /** Wall.IsFloating, for the wall component `wall` at p. */
  method IsFloating(wall: PlaceableObject, bm: BlockManager, scene: Scene, floors: BuildingFloorManager, p: Pos)
    returns (isFloating: bool)
    requires bm.Valid() && wall.gameObject in scene.objects
    ensures isFloating == WallFloats(bm.Cells(), floors.activeFloor, scene.objects[wall.gameObject].yaw, p)
  {
    var yaw := scene.objects[wall.gameObject].yaw;
    isFloating := false;
    if floors.activeFloor != 0 {
      var belowWall := bm.Lookup(WallPosition(Pos(p.x, floors.activeFloor - 1, p.z), yaw));
      if belowWall == null {
        if yaw != 0 {
          isFloating := !IsBlockTiled(bm, Pos(p.x, p.y, p.z - UNIT)) && !IsBlockTiled(bm, Pos(p.x, p.y, p.z + UNIT));
        } else {
          isFloating := !IsBlockTiled(bm, Pos(p.x - UNIT, p.y, p.z)) && !IsBlockTiled(bm, Pos(p.x + UNIT, p.y, p.z));
        }
      }
    }
  }

  /** The test of one cell in IsValidLocation's loops. */
  method CellAcceptable(wall: PlaceableObject, bm: BlockManager, scene: Scene, floors: BuildingFloorManager, p: Pos)
    returns (ok: bool)
    requires bm.Valid() && wall.gameObject in scene.objects
    ensures ok == CellOk(bm.Cells(), floors.activeFloor, scene.objects[wall.gameObject].yaw, p)
  {
    var block := bm.Lookup(WallPosition(p, scene.objects[wall.gameObject].yaw));
    var floating := IsFloating(wall, bm, scene, floors, p);
    ok := !((block != null && (block.wall.Some? || block.blockObject.Some?)) || floating);
  }

  lemma AllOkCons(s: Store, activeFloor: int, yaw: Yaw, c: Pos, rest: seq<Pos>)
    ensures AllOk(s, activeFloor, yaw, [c] + rest) == (CellOk(s, activeFloor, yaw, c) && AllOk(s, activeFloor, yaw, rest))
  {
    assert ([c] + rest)[0] == c && ([c] + rest)[1..] == rest;
  }

  /**
   * The counter of Place's loops: whole units from end, moving by inc
   * toward stop, which lies one step past end.
   */
  predicate Stepping(c: int, e: int, stop: int, inc: int) {
    && IsWhole(e - c)
    && (inc == UNIT || inc == -UNIT)
    && stop == e + inc
    && (c != stop ==> c == e || Dir(c, e) == inc)
    && (if inc == UNIT then c <= stop else c >= stop)
  }

  /** The cells a loop at c has still to visit: none once c reaches stop. */
  function XLeft(c: Pos, e: int, stop: int, inc: int): seq<Pos>
    requires Stepping(c.x, e, stop, inc)
  {
    if c.x == stop then [] else RunX(c, e)
  }

  function ZLeft(c: Pos, e: int, stop: int, inc: int): seq<Pos>
    requires Stepping(c.z, e, stop, inc)
  {
    if c.z == stop then [] else RunZ(c, e)
  }

  /** The first cell a loop starts from, stepping toward e and stopping one step past it. */
  lemma SteppingStart(c: int, e: int)
    requires IsWhole(e - c)
    ensures Stepping(c, e, e + Dir(c, e), Dir(c, e)) && c != e + Dir(c, e)
  {
  }

  lemma XLeftNext(c: Pos, e: int, stop: int, inc: int)
    requires Stepping(c.x, e, stop, inc) && c.x != stop
    ensures Stepping(c.x + inc, e, stop, inc)
    ensures XLeft(c, e, stop, inc) == [c] + XLeft(Pos(c.x + inc, c.y, c.z), e, stop, inc)
    ensures Abs(stop - (c.x + inc)) < Abs(stop - c.x)
  {
  }

  lemma ZLeftNext(c: Pos, e: int, stop: int, inc: int)
    requires Stepping(c.z, e, stop, inc) && c.z != stop
    ensures Stepping(c.z + inc, e, stop, inc)
    ensures ZLeft(c, e, stop, inc) == [c] + ZLeft(Pos(c.x, c.y, c.z + inc), e, stop, inc)
    ensures Abs(stop - (c.z + inc)) < Abs(stop - c.z)
  {
  }

  /**
   * The checks still to make along z: the whole run is acceptable exactly
   * when the cells from c on are.
   */
  ghost predicate ZTodo(s: Store, activeFloor: int, yaw: Yaw, start: Pos, e: int, c: int, inc: int, want: bool) {
    && Stepping(c, e, e + inc, inc)
    && want == AllOk(s, activeFloor, yaw, ZLeft(Pos(start.x, start.y, c), e, e + inc, inc))
  }

  ghost predicate XTodo(s: Store, activeFloor: int, yaw: Yaw, start: Pos, e: int, c: int, inc: int, want: bool) {
    && Stepping(c, e, e + inc, inc)
    && want == AllOk(s, activeFloor, yaw, XLeft(Pos(c, start.y, start.z), e, e + inc, inc))
  }

  /** At the start every cell of the run is still to be checked. */
  lemma ZTodoStart(s: Store, activeFloor: int, yaw: Yaw, start: Pos, e: int)
    requires IsWhole(e - start.z)
    ensures ZTodo(s, activeFloor, yaw, start, e, start.z, Dir(start.z, e), AllOk(s, activeFloor, yaw, RunZ(start, e)))
  {
    SteppingStart(start.z, e);
    assert Pos(start.x, start.y, start.z) == start;
  }

  lemma XTodoStart(s: Store, activeFloor: int, yaw: Yaw, start: Pos, e: int)
    requires IsWhole(e - start.x)
    ensures XTodo(s, activeFloor, yaw, start, e, start.x, Dir(start.x, e), AllOk(s, activeFloor, yaw, RunX(start, e)))
  {
    SteppingStart(start.x, e);
    assert Pos(start.x, start.y, start.z) == start;
  }

  /** Testing the cell at c either refuses the run or leaves the checks from the next cell. */
  lemma ZTodoStep(s: Store, activeFloor: int, yaw: Yaw, start: Pos, e: int, c: int, inc: int, want: bool)
    requires ZTodo(s, activeFloor, yaw, start, e, c, inc, want) && c != e + inc
    ensures Abs(e - c) < Abs(e - (c - inc))
    ensures !CellOk(s, activeFloor, yaw, Pos(start.x, start.y, c)) ==> !want
    ensures CellOk(s, activeFloor, yaw, Pos(start.x, start.y, c)) ==> ZTodo(s, activeFloor, yaw, start, e, c + inc, inc, want)
  {
    var here := Pos(start.x, start.y, c);
    ZLeftNext(here, e, e + inc, inc);
    AllOkCons(s, activeFloor, yaw, here, ZLeft(Pos(start.x, start.y, c + inc), e, e + inc, inc));
  }

  lemma XTodoStep(s: Store, activeFloor: int, yaw: Yaw, start: Pos, e: int, c: int, inc: int, want: bool)
    requires XTodo(s, activeFloor, yaw, start, e, c, inc, want) && c != e + inc
    ensures Abs(e - c) < Abs(e - (c - inc))
    ensures !CellOk(s, activeFloor, yaw, Pos(c, start.y, start.z)) ==> !want
    ensures CellOk(s, activeFloor, yaw, Pos(c, start.y, start.z)) ==> XTodo(s, activeFloor, yaw, start, e, c + inc, inc, want)
  {
    var here := Pos(c, start.y, start.z);
    XLeftNext(here, e, e + inc, inc);
    AllOkCons(s, activeFloor, yaw, here, XLeft(Pos(c + inc, start.y, start.z), e, e + inc, inc));
  }

  /** One test of the z loop: the cell at c, with what it tells about the whole run. */
  method TestZ(wall: PlaceableObject, bm: BlockManager, scene: Scene, floors: BuildingFloorManager,
                 start: Pos, e: int, c: int, inc: int, ghost want: bool) returns (ok: bool)
    requires bm.Valid() && wall.gameObject in scene.objects
    requires ZTodo(bm.Cells(), floors.activeFloor, scene.objects[wall.gameObject].yaw, start, e, c, inc, want) && c != e + inc
    ensures Abs(e - c) < Abs(e - (c - inc))
    ensures !ok ==> !want
    ensures ok ==> ZTodo(bm.Cells(), floors.activeFloor, scene.objects[wall.gameObject].yaw, start, e, c + inc, inc, want)
  {
    ZTodoStep(bm.Cells(), floors.activeFloor, scene.objects[wall.gameObject].yaw, start, e, c, inc, want);
    ok := CellAcceptable(wall, bm, scene, floors, Pos(start.x, start.y, c));
  }

  /** Past end nothing is left to check: the run is acceptable. */
  lemma ZTodoDone(s: Store, activeFloor: int, yaw: Yaw, start: Pos, e: int, inc: int, want: bool)
    requires ZTodo(s, activeFloor, yaw, start, e, e + inc, inc, want)
    ensures want
  {
    assert ZLeft(Pos(start.x, start.y, e + inc), e, e + inc, inc) == [];
  }

  /** One test of the x loop: the cell at c, with what it tells about the whole run. */
  method TestX(wall: PlaceableObject, bm: BlockManager, scene: Scene, floors: BuildingFloorManager,
                 start: Pos, e: int, c: int, inc: int, ghost want: bool) returns (ok: bool)
    requires bm.Valid() && wall.gameObject in scene.objects
    requires XTodo(bm.Cells(), floors.activeFloor, scene.objects[wall.gameObject].yaw, start, e, c, inc, want) && c != e + inc
    ensures Abs(e - c) < Abs(e - (c - inc))
    ensures !ok ==> !want
    ensures ok ==> XTodo(bm.Cells(), floors.activeFloor, scene.objects[wall.gameObject].yaw, start, e, c + inc, inc, want)
  {
    XTodoStep(bm.Cells(), floors.activeFloor, scene.objects[wall.gameObject].yaw, start, e, c, inc, want);
    ok := CellAcceptable(wall, bm, scene, floors, Pos(c, start.y, start.z));
  }

  lemma XTodoDone(s: Store, activeFloor: int, yaw: Yaw, start: Pos, e: int, inc: int, want: bool)
    requires XTodo(s, activeFloor, yaw, start, e, e + inc, inc, want)
    ensures want
  {
    assert XLeft(Pos(e + inc, start.y, start.z), e, e + inc, inc) == [];
  }

  /**
   * The z loop of IsValidLocation: the counter starts one step before
   * start.z and tests each cell up to end.z, stopping at the first refused
   * one.
   */
  method RunValidZ(wall: PlaceableObject, bm: BlockManager, scene: Scene, floors: BuildingFloorManager, start: Pos, end: Pos)
    returns (isValid: bool)
    requires bm.Valid() && wall.gameObject in scene.objects
    requires IsWhole(start.z) && IsWhole(end.z)
    ensures isValid == AllOk(bm.Cells(), floors.activeFloor, scene.objects[wall.gameObject].yaw, RunZ(start, end.z))
  {
    ghost var s := bm.Cells();
    ghost var yaw := scene.objects[wall.gameObject].yaw;
    ghost var want := AllOk(s, floors.activeFloor, yaw, RunZ(start, end.z));
    var direction := if start.z < end.z then UNIT else -UNIT;
    var i := start.z - direction;
    ZTodoStart(s, floors.activeFloor, yaw, start, end.z);
    isValid := true;
    while i != end.z
      invariant ZTodo(s, floors.activeFloor, yaw, start, end.z, i + direction, direction, want)
      decreases Abs(end.z - i)
    {
      i := i + direction;
      var ok := TestZ(wall, bm, scene, floors, start, end.z, i, direction, want);
      if !ok {
        isValid := false;
        break;
      }
    }
    if isValid {
      ZTodoDone(s, floors.activeFloor, yaw, start, end.z, direction, want);
    }
  }

  /** The x loop of IsValidLocation. */
  method RunValidX(wall: PlaceableObject, bm: BlockManager, scene: Scene, floors: BuildingFloorManager, start: Pos, end: Pos)
    returns (isValid: bool)
    requires bm.Valid() && wall.gameObject in scene.objects
    requires IsWhole(start.x) && IsWhole(end.x)
    ensures isValid == AllOk(bm.Cells(), floors.activeFloor, scene.objects[wall.gameObject].yaw, RunX(start, end.x))
  {
    ghost var s := bm.Cells();
    ghost var yaw := scene.objects[wall.gameObject].yaw;
    ghost var want := AllOk(s, floors.activeFloor, yaw, RunX(start, end.x));
    var direction := if start.x < end.x then UNIT else -UNIT;
    var i := start.x - direction;
    XTodoStart(s, floors.activeFloor, yaw, start, end.x);
    isValid := true;
    while i != end.x
      invariant XTodo(s, floors.activeFloor, yaw, start, end.x, i + direction, direction, want)
      decreases Abs(end.x - i)
    {
      i := i + direction;
      var ok := TestX(wall, bm, scene, floors, start, end.x, i, direction, want);
      if !ok {
        isValid := false;
        break;
      }
    }
    if isValid {
      XTodoDone(s, floors.activeFloor, yaw, start, end.x, direction, want);
    }
  }

  /** Wall.IsValidLocation */
  method IsValidLocation(wall: PlaceableObject, bm: BlockManager, scene: Scene, floors: BuildingFloorManager, start: Pos, end: Pos)
    returns (isValid: bool)
    requires bm.Valid() && wall.gameObject in scene.objects && Steppable(start, end)
    ensures isValid == ValidWallLocation(bm.Cells(), floors.activeFloor, scene.objects[wall.gameObject].yaw, start, end)
  {
    isValid := true;
    if start == end {
      var ok := CellAcceptable(wall, bm, scene, floors, end);
      isValid := IsBlockPositionValid(start) && ok;
    } else if start.x != end.x && start.z != end.z {
      isValid := false;
    } else {
      if start.x == end.x {
        isValid := RunValidZ(wall, bm, scene, floors, start, end);
        if start.z == end.z {
          assert RunZ(start, end.z) == [start] == RunX(start, end.x);
        }
      } else {
        isValid := RunValidX(wall, bm, scene, floors, start, end);
      }
      isValid := isValid && IsAreaValid(start, end);
    }
  }

  /**
   * Wall.PutWall. When the active floor is outside the floor array the copy
   * is made and moved to p, then AssignToCurrentFloor raises: the store is
   * not written and raised is true.
   */
  method PutWall(wall: PlaceableObject, bm: BlockManager, scene: Scene, floors: BuildingFloorManager, p: Pos)
    returns (placed: PlaceableObject, raised: bool)
    requires bm.Valid() && scene.Valid() && wall.gameObject in scene.objects
    modifies bm, bm.Repr, scene
    ensures bm.Valid() && scene.Valid()
    ensures raised <==> floors.Container().None?
    ensures !raised ==> State(bm, scene) == PutWallSpec(old(State(bm, scene)), wall.gameObject, floors.Container().value, p)
    ensures raised ==> State(bm, scene) == Stranded(old(State(bm, scene)), wall.gameObject, p)
    ensures placed.gameObject == old(scene.nextId)
    ensures fresh(bm.Repr - old(bm.Repr))
  {
    var ok;
    placed, ok := MakeCopy(wall, scene, floors, p);
    raised := !ok;
    if raised {
      return;
    }
    var _ := bm.PutWall(scene.objects[placed.gameObject].yaw, placed.gameObject, p);
  }

  /** The ids of placed wall components. */
  predicate NumberedFrom(placed: seq<PlaceableObject>, first: ObjId) {
    forall k | 0 <= k < |placed| :: placed[k].gameObject == first + k
  }

  /**
   * What is left of a run of walls: with the active floor in the floor
   * array, PutWall over the cells left gives the final world; outside it,
   * nothing has been done yet and the first PutWall raises.
   */
  ghost predicate WallsLeft(w: World, original: ObjId, floor: Option<ObjId>, cells: seq<Pos>, final: World, w0: World) {
    && original in w.objects && original < w.nextId
    && (floor.Some? ==> PutWalls(w, original, floor.value, cells) == final)
    && (floor.None? ==> w == w0)
  }

  /**
   * One iteration of Place's loops: PutWall at the head c of the cells
   * still to do.
   */
  method PlaceNextWall(wall: PlaceableObject, bm: BlockManager, scene: Scene, floors: BuildingFloorManager,
                       placedWalls: seq<PlaceableObject>, c: Pos, ghost rest: seq<Pos>, ghost first: ObjId,
                       ghost final: World, ghost w0: World)
    returns (placed: seq<PlaceableObject>, raised: bool)
    requires bm.Valid() && scene.Valid()
    requires WallsLeft(State(bm, scene), wall.gameObject, floors.Container(), [c] + rest, final, w0)
    requires NumberedFrom(placedWalls, first) && scene.nextId == first + |placedWalls|
    modifies bm, bm.Repr, scene
    ensures bm.Valid() && scene.Valid()
    ensures raised <==> floors.Container().None?
    ensures raised ==> State(bm, scene) == Stranded(w0, wall.gameObject, c)
    ensures !raised ==> WallsLeft(State(bm, scene), wall.gameObject, floors.Container(), rest, final, w0)
    ensures NumberedFrom(placed, first) && scene.nextId == first + |placed|
    ensures fresh(bm.Repr - old(bm.Repr))
  {
    if floors.Container().Some? {
      PutWallsCons(State(bm, scene), wall.gameObject, floors.Container().value, c, rest);
    }
    var t;
    t, raised := PutWall(wall, bm, scene, floors, c);
    placed := placedWalls + [t];
  }

  /** One iteration of the x run of Wall.Place: a wall at current, then one step on. */
  method PlaceNextX(wall: PlaceableObject, bm: BlockManager, scene: Scene, floors: BuildingFloorManager,
                     placedWalls: seq<PlaceableObject>, current: Pos, e: int, stop: int, inc: int, ghost first: ObjId,
                     ghost final: World, ghost w0: World)
    returns (placed: seq<PlaceableObject>, next: Pos, raised: bool)
    requires bm.Valid() && scene.Valid()
    requires Stepping(current.x, e, stop, inc) && current.x != stop
    requires WallsLeft(State(bm, scene), wall.gameObject, floors.Container(), XLeft(current, e, stop, inc), final, w0)
    requires NumberedFrom(placedWalls, first) && scene.nextId == first + |placedWalls|
    modifies bm, bm.Repr, scene
    ensures bm.Valid() && scene.Valid()
    ensures next.z == current.z && next.y == current.y && Stepping(next.x, e, stop, inc) && Abs(stop - next.x) < Abs(stop - current.x)
    ensures raised <==> floors.Container().None?
    ensures raised ==> State(bm, scene) == Stranded(w0, wall.gameObject, current)
    ensures !raised ==> WallsLeft(State(bm, scene), wall.gameObject, floors.Container(), XLeft(next, e, stop, inc), final, w0)
    ensures NumberedFrom(placed, first) && scene.nextId == first + |placed|
    ensures fresh(bm.Repr - old(bm.Repr))
  {
    XLeftNext(current, e, stop, inc);
    next := Pos(current.x + inc, current.y, current.z);
    placed, raised := PlaceNextWall(wall, bm, scene, floors, placedWalls, current, XLeft(next, e, stop, inc), first, final, w0);
  }

  /**
   * The x run of Wall.Place: the end pushed one unit further, then a wall
   * at each cell up to it. Outside the floor array the first wall raises.
   */
  method PlaceAlongX(wall: PlaceableObject, bm: BlockManager, scene: Scene, floors: BuildingFloorManager, start: Pos, end: Pos)
    returns (placedWalls: seq<PlaceableObject>, raised: bool)
    requires bm.Valid() && scene.Valid() && wall.gameObject in scene.objects
    requires IsWhole(end.x - start.x)
    modifies bm, bm.Repr, scene
    ensures bm.Valid() && scene.Valid()
    ensures raised <==> floors.Container().None?
    ensures !raised ==> State(bm, scene) == PutWalls(old(State(bm, scene)), wall.gameObject, floors.Container().value, RunX(start, end.x))
    ensures !raised ==> NumberedFrom(placedWalls, old(scene.nextId)) && |placedWalls| == |RunX(start, end.x)|
    ensures raised ==> State(bm, scene) == Stranded(old(State(bm, scene)), wall.gameObject, start)
  {
    ghost var w0 := State(bm, scene);
    ghost var final := if floors.Container().Some? then PutWalls(w0, wall.gameObject, floors.Container().value, RunX(start, end.x)) else w0;
    ghost var first := scene.nextId;
    var stop := if start.x < end.x then end.x + UNIT else end.x - UNIT;
    var increment := if start.x < stop then UNIT else -UNIT;
    SteppingStart(start.x, end.x);
    var current := start;
    placedWalls, raised := [], false;
    while current.x != stop
      invariant Stepping(current.x, end.x, stop, increment)
      invariant bm.Valid() && scene.Valid()
      invariant fresh(bm.Repr - old(bm.Repr))
      invariant WallsLeft(State(bm, scene), wall.gameObject, floors.Container(), XLeft(current, end.x, stop, increment), final, w0)
      invariant floors.Container().None? ==> current == start
      invariant NumberedFrom(placedWalls, first) && scene.nextId == first + |placedWalls|
      decreases Abs(stop - current.x)
    {
      placedWalls, current, raised := PlaceNextX(wall, bm, scene, floors, placedWalls, current, end.x, stop, increment, first, final, w0);
      if raised {
        return;
      }
    }
    if floors.Container().None? {
      assert false;
    }
  }

  /** One iteration of the z run of Wall.Place: a wall at current, then one step on. */
  method PlaceNextZ(wall: PlaceableObject, bm: BlockManager, scene: Scene, floors: BuildingFloorManager,
                     placedWalls: seq<PlaceableObject>, current: Pos, e: int, stop: int, inc: int, ghost first: ObjId,
                     ghost final: World, ghost w0: World)
    returns (placed: seq<PlaceableObject>, next: Pos, raised: bool)
    requires bm.Valid() && scene.Valid()
    requires Stepping(current.z, e, stop, inc) && current.z != stop
    requires WallsLeft(State(bm, scene), wall.gameObject, floors.Container(), ZLeft(current, e, stop, inc), final, w0)
    requires NumberedFrom(placedWalls, first) && scene.nextId == first + |placedWalls|
    modifies bm, bm.Repr, scene
    ensures bm.Valid() && scene.Valid()
    ensures next.x == current.x && next.y == current.y && Stepping(next.z, e, stop, inc) && Abs(stop - next.z) < Abs(stop - current.z)
    ensures raised <==> floors.Container().None?
    ensures raised ==> State(bm, scene) == Stranded(w0, wall.gameObject, current)
    ensures !raised ==> WallsLeft(State(bm, scene), wall.gameObject, floors.Container(), ZLeft(next, e, stop, inc), final, w0)
    ensures NumberedFrom(placed, first) && scene.nextId == first + |placed|
    ensures fresh(bm.Repr - old(bm.Repr))
  {
    ZLeftNext(current, e, stop, inc);
    next := Pos(current.x, current.y, current.z + inc);
    placed, raised := PlaceNextWall(wall, bm, scene, floors, placedWalls, current, ZLeft(next, e, stop, inc), first, final, w0);
  }

  /**
   * The z run of Wall.Place: the end pushed one unit further, then a wall
   * at each cell up to it. Outside the floor array the first wall raises.
   */
  method PlaceAlongZ(wall: PlaceableObject, bm: BlockManager, scene: Scene, floors: BuildingFloorManager, start: Pos, end: Pos)
    returns (placedWalls: seq<PlaceableObject>, raised: bool)
    requires bm.Valid() && scene.Valid() && wall.gameObject in scene.objects
    requires IsWhole(end.z - start.z)
    modifies bm, bm.Repr, scene
    ensures bm.Valid() && scene.Valid()
    ensures raised <==> floors.Container().None?
    ensures !raised ==> State(bm, scene) == PutWalls(old(State(bm, scene)), wall.gameObject, floors.Container().value, RunZ(start, end.z))
    ensures !raised ==> NumberedFrom(placedWalls, old(scene.nextId)) && |placedWalls| == |RunZ(start, end.z)|
    ensures raised ==> State(bm, scene) == Stranded(old(State(bm, scene)), wall.gameObject, start)
  {
    ghost var w0 := State(bm, scene);
    ghost var final := if floors.Container().Some? then PutWalls(w0, wall.gameObject, floors.Container().value, RunZ(start, end.z)) else w0;
    ghost var first := scene.nextId;
    var stop := if start.z < end.z then end.z + UNIT else end.z - UNIT;
    var increment := if start.z < stop then UNIT else -UNIT;
    SteppingStart(start.z, end.z);
    var current := start;
    placedWalls, raised := [], false;
    while current.z != stop
      invariant Stepping(current.z, end.z, stop, increment)
      invariant bm.Valid() && scene.Valid()
      invariant fresh(bm.Repr - old(bm.Repr))
      invariant WallsLeft(State(bm, scene), wall.gameObject, floors.Container(), ZLeft(current, end.z, stop, increment), final, w0)
      invariant floors.Container().None? ==> current == start
      invariant NumberedFrom(placedWalls, first) && scene.nextId == first + |placedWalls|
      decreases Abs(stop - current.z)
    {
      placedWalls, current, raised := PlaceNextZ(wall, bm, scene, floors, placedWalls, current, end.z, stop, increment, first, final, w0);
      if raised {
        return;
      }
    }
    if floors.Container().None? {
      assert false;
    }
  }

  /**
   * Wall.Place: validity is checked first; a single cell gets one wall at
   * end, a straight run one wall per cell, including both ends. When the
   * active floor is outside the floor array, the first wall raises.
   */
  method Place(wall: PlaceableObject, bm: BlockManager, scene: Scene, floors: BuildingFloorManager, start: Pos, end: Pos)
    returns (placedWalls: seq<PlaceableObject>, raised: bool)
    requires bm.Valid() && scene.Valid() && wall.gameObject in scene.objects
    requires Steppable(start, end)
    modifies bm, bm.Repr, scene
    ensures bm.Valid() && scene.Valid()
    ensures floors.Container().Some? ==> !raised
    ensures floors.Container().Some? ==>
      State(bm, scene) == PlaceSpec(old(State(bm, scene)), wall.gameObject, floors.Container().value, floors.activeFloor, start, end)
    ensures floors.Container().None? ==>
      (State(bm, scene), raised) == PlaceRaising(old(State(bm, scene)), wall.gameObject, floors.activeFloor, start, end)
    ensures !raised ==>
      |placedWalls| == PlacedCount(old(bm.Cells()), floors.activeFloor, old(scene.objects[wall.gameObject].yaw), start, end)
    ensures !raised ==> NumberedFrom(placedWalls, old(scene.nextId))
  {
    placedWalls, raised := [], false;
    var valid := IsValidLocation(wall, bm, scene, floors, start, end);
    if valid {
      if start == end {
        if floors.Container().Some? {
          PutWallsCons(State(bm, scene), wall.gameObject, floors.Container().value, end, []);
        }
        assert [end] + [] == [end];
        var t;
        t, raised := PutWall(wall, bm, scene, floors, end);
        placedWalls := [t];
      } else if start.z == end.z {
        placedWalls, raised := PlaceAlongX(wall, bm, scene, floors, start, end);
      } else if start.x == end.x {
        placedWalls, raised := PlaceAlongZ(wall, bm, scene, floors, start, end);
      }
    }
  }

  /**
   * Wall.PickUp: the wall channel of the record at the wall's own wall
   * position is cleared, if there is a record; the wall moves to the temp
   * holder either way.
   */
  method PickUp(wall: PlaceableObject, bm: BlockManager, scene: Scene, floors: BuildingFloorManager)
    requires bm.Valid() && scene.Valid() && wall.gameObject in scene.objects
    modifies bm, bm.Repr, scene
    ensures bm.Valid() && scene.Valid()
    ensures bm.Cells() == ClearWall(old(bm.Cells()),
      WallPosition(old(scene.objects[wall.gameObject].position), old(scene.objects[wall.gameObject].yaw)))
    ensures scene.objects == old(scene.objects)[wall.gameObject := old(scene.objects[wall.gameObject]).(parent := Some(floors.tempFloor))]
  {
    var o := scene.objects[wall.gameObject];
    var k := WallPosition(o.position, o.yaw);
    var block := bm.Lookup(k);
    if block != null {
      block.wall := None;
      bm.cells := ClearWall(bm.cells, k);
      forall q | q in bm.blocks
        ensures bm.blocks[q].View() == bm.cells[q]
      {
        if q != k {
          assert bm.blocks[q] != block;
        }
      }
    }
    floors.AssignToTempFloor(scene, wall.gameObject);
  }
}
