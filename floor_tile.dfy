/**
 * FloorTile.cs: floor tiles are placed one cell at a time, along a line or
 * over a rectangle, and may not float above the ground floor.
 */
module FloorTiles {
  import opened Wrappers
  import opened Grid
  import opened Occupancy
  import opened Scenes
  import opened BlockStore
  import opened Floors
  import opened Placeables

  // ---------------------------------------------------------------------
  // Stepping

  /** FloorTile.StepBlock: one unit toward end, along z or along x. */
  function StepBlock(current: Pos, end: Pos, zAxis: bool): (r: Pos)
    ensures r.y == current.y
    ensures zAxis ==> r.x == current.x && (IsWhole(end.z - current.z) && current.z != end.z ==>
      IsWhole(end.z - r.z) && Abs(end.z - r.z) < Abs(end.z - current.z))
    ensures !zAxis ==> r.z == current.z && (IsWhole(end.x - current.x) && current.x != end.x ==>
      IsWhole(end.x - r.x) && Abs(end.x - r.x) < Abs(end.x - current.x))
  {
    if zAxis then Pos(current.x, current.y, if current.z < end.z then current.z + UNIT else current.z - UNIT)
    else Pos(if current.x < end.x then current.x + UNIT else current.x - UNIT, current.y, current.z)
  }

  /**
   * FloorTile.AdjustEndValueForStepping: end pushed one unit further from
   * current on each axis where they differ.
   */
  function AdjustEnd(current: Pos, end: Pos): Pos {
    Pos(if current.x < end.x then end.x + UNIT else if current.x > end.x then end.x - UNIT else end.x,
        end.y,
        if current.z < end.z then end.z + UNIT else if current.z > end.z then end.z - UNIT else end.z)
  }

  /** The selection's corners are a whole number of units apart, so stepping reaches the end. */
  predicate Aligned(start: Pos, end: Pos) {
    IsWhole(end.x - start.x) && IsWhole(end.z - start.z)
  }

  /** The z loop: cells from current while its z differs from end's. */
  function WalkZ(current: Pos, end: Pos): seq<Pos>
    requires IsWhole(end.z - current.z)
    decreases Abs(end.z - current.z)
  {
    if current.z == end.z then []
    else [current] + WalkZ(StepBlock(current, end, true), end)
  }

  /** The x loop: cells from current while its x differs from end's. */
  function WalkX(current: Pos, end: Pos): seq<Pos>
    requires IsWhole(end.x - current.x)
    decreases Abs(end.x - current.x)
  {
    if current.x == end.x then []
    else [current] + WalkX(StepBlock(current, end, false), end)
  }

  /** The nested loops: a z run from each row start, the row start stepping along x. */
  function WalkRect(row: Pos, end: Pos): seq<Pos>
    requires IsWhole(end.x - row.x) && IsWhole(end.z - row.z)
    decreases Abs(end.x - row.x)
  {
    if row.x == end.x then []
    else WalkZ(row, end) + WalkRect(StepBlock(row, end, false), end)
  }

  /** The cells Place and IsFloatingArea visit for a selection from start to end, in order. */
  function Visited(start: Pos, end: Pos): seq<Pos>
    requires Aligned(start, end)
  {
    var e := AdjustEnd(start, end);
    if start.x == e.x then WalkZ(start, e)
    else if start.z == e.z then WalkX(start, e)
    else WalkRect(start, e)
  }

  /** v lies on the half-open run from `from` toward `to`, on the same unit grid. */
  predicate InRun(v: int, from: int, to: int) {
    IsWhole(v - from) && if from < to then from <= v < to else to < v <= from
  }

  lemma {:induction false} WalkZCells(current: Pos, end: Pos, p: Pos)
    requires IsWhole(end.z - current.z)
    ensures p in WalkZ(current, end) <==> p.x == current.x && p.y == current.y && InRun(p.z, current.z, end.z)
    decreases Abs(end.z - current.z)
  {
    if current.z != end.z {
      var next := StepBlock(current, end, true);
      assert WalkZ(current, end) == [current] + WalkZ(next, end);
      assert IsWhole(p.z - next.z) <==> IsWhole(p.z - current.z);
      WalkZCells(next, end, p);
    }
  }

  lemma {:induction false} WalkXCells(current: Pos, end: Pos, p: Pos)
    requires IsWhole(end.x - current.x)
    ensures p in WalkX(current, end) <==> p.z == current.z && p.y == current.y && InRun(p.x, current.x, end.x)
    decreases Abs(end.x - current.x)
  {
    if current.x != end.x {
      var next := StepBlock(current, end, false);
      assert WalkX(current, end) == [current] + WalkX(next, end);
      assert IsWhole(p.x - next.x) <==> IsWhole(p.x - current.x);
      WalkXCells(next, end, p);
    }
  }

  lemma {:induction false} WalkRectCells(row: Pos, end: Pos, p: Pos)
    requires IsWhole(end.x - row.x) && IsWhole(end.z - row.z)
    ensures p in WalkRect(row, end) <==>
      p.y == row.y && InRun(p.x, row.x, end.x) && InRun(p.z, row.z, end.z)
    decreases Abs(end.x - row.x)
  {
    if row.x != end.x {
      WalkZCells(row, end, p);
      WalkRectCells(StepBlock(row, end, false), end, p);
    }
  }

  /**
   * Together, AdjustEndValueForStepping and StepBlock visit every cell of
   * the selection, corners included, on the start's floor, as long as the
   * selection extends along x or z.
   */
  lemma VisitedIsTheSelection(start: Pos, end: Pos, p: Pos)
    requires Aligned(start, end) && (start.x != end.x || start.z != end.z)
    ensures p in Visited(start, end) <==>
      && p.y == start.y
      && Between(p.x, start.x, end.x) && IsWhole(p.x - start.x)
      && Between(p.z, start.z, end.z) && IsWhole(p.z - start.z)
  {
    var e := AdjustEnd(start, end);
    AdjustedAxis(p.x, start.x, end.x);
    AdjustedAxis(p.z, start.z, end.z);
    if start.x == e.x {
      WalkZCells(start, e, p);
    } else if start.z == e.z {
      WalkXCells(start, e, p);
    } else {
      WalkRectCells(start, e, p);
    }
  }

  /**
   * On one axis: with the end pushed one unit further, the half-open run
   * from s is the closed range from s to e; on an axis where s and e agree
   * the range is s alone.
   */
  lemma AdjustedAxis(v: int, s: int, e: int)
    requires IsWhole(e - s)
    ensures var a := if s < e then e + UNIT else if s > e then e - UNIT else e;
      && (s == e ==> (v == s <==> Between(v, s, e) && IsWhole(v - s)))
      && (s != e ==> (InRun(v, s, a) <==> Between(v, s, e) && IsWhole(v - s)))
  {
  }

  /** A selection differing only in height visits no cell at all. */
  lemma HeightOnlySelectionVisitsNothing(start: Pos, end: Pos)
    requires start.x == end.x && start.z == end.z
    ensures Visited(start, end) == []
  {
  }

  // ---------------------------------------------------------------------
  // Floating

  /** FloorTile.IsFloating(position): no tile next to it and no wall next to the cell below. */
  predicate CellFloats(s: Store, p: Pos) {
    !IsNextToTile(s, p) && !IsNextToWall(s, Below(p))
  }

  predicate AllFloat(s: Store, cells: seq<Pos>) {
    forall c | c in cells :: CellFloats(s, c)
  }

  /**
   * FloorTile.IsFloating(start, end): only above the ground floor; a
   * single cell floats on its own, a selection only when every visited
   * cell floats.
   */
  predicate Floating(s: Store, start: Pos, end: Pos)
    requires start.y > 0 && start != end ==> Aligned(start, end)
  {
    start.y > 0 && if start == end then CellFloats(s, end) else AllFloat(s, Visited(start, end))
  }

  /** FloorTile.IsValidLocation */
  predicate ValidLocation(s: Store, start: Pos, end: Pos)
    requires IsAreaValid(start, end) && start.y > 0 && start != end ==> Aligned(start, end)
  {
    IsAreaValid(start, end) && !Floating(s, start, end) && (start != end || !IsBlockerTileSet(s, end))
  }

  /** Nothing floats on the ground floor. */
  lemma GroundNeverFloats(s: Store, start: Pos, end: Pos)
    requires start.y <= 0
    ensures !Floating(s, start, end)
  {
  }

  /**
   * One supported cell is enough: a selection with a cell that has a tile
   * beside it or a wall beside the cell below does not float.
   */
  lemma OneSupportedCellSuffices(s: Store, start: Pos, end: Pos, c: Pos)
    requires Aligned(start, end) && start != end
    requires c in Visited(start, end)
    requires IsNextToTile(s, c) || IsNextToWall(s, Below(c))
    ensures !Floating(s, start, end)
  {
  }

  /**
   * A single cell next to a tiled cell of the same floor is a valid tile
   * location when in bounds and not blocked, at any height.
   */
  lemma TileBesideTileIsValid(s: Store, p: Pos, q: Pos)
    requires IsBlockPositionValid(p) && !IsBlockerTileSet(s, p)
    requires q in UnitNeighbours(p) && HasTile(s, q)
    ensures ValidLocation(s, p, p)
  {
  }

  /** FloorTile.IsFloating(position) */
  method IsFloatingCell(bm: BlockManager, p: Pos) returns (r: bool)
    requires bm.Valid()
    ensures r == CellFloats(bm.Cells(), p)
  {
    var nextToTile := bm.IsNextToTile(p);
    var nextToWall := bm.IsNextToWall(Below(p));
    r := !nextToTile && !nextToWall;
  }

  /** One z run of FloorTile.IsFloatingArea, left at the first supported cell. */
  method RunFloats(bm: BlockManager, current: Pos, e: Pos) returns (isFloating: bool)
    requires bm.Valid()
    requires IsWhole(e.z - current.z)
    ensures isFloating == AllFloat(bm.Cells(), WalkZ(current, e))
  {
    var s := bm.Cells();
    var c := current;
    isFloating := true;
    while c.z != e.z
      invariant IsWhole(e.z - c.z)
      invariant AllFloat(s, WalkZ(current, e)) == AllFloat(s, WalkZ(c, e))
      decreases Abs(e.z - c.z)
    {
      var f := IsFloatingCell(bm, c);
      if !f {
        isFloating := false;
        break;
      }
      c := StepBlock(c, e, true);
    }
  }

  /** The x line of FloorTile.IsFloatingArea, left at the first supported cell. */
  method LineFloats(bm: BlockManager, current: Pos, e: Pos) returns (isFloating: bool)
    requires bm.Valid()
    requires IsWhole(e.x - current.x)
    ensures isFloating == AllFloat(bm.Cells(), WalkX(current, e))
  {
    var s := bm.Cells();
    var c := current;
    isFloating := true;
    while c.x != e.x
      invariant IsWhole(e.x - c.x)
      invariant AllFloat(s, WalkX(current, e)) == AllFloat(s, WalkX(c, e))
      decreases Abs(e.x - c.x)
    {
      var f := IsFloatingCell(bm, c);
      if !f {
        isFloating := false;
        break;
      }
      c := StepBlock(c, e, false);
    }
  }

  /**
   * The rectangle of FloorTile.IsFloatingArea: every row's z run is
   * walked, and the flag, once cleared, is never set back.
   */
  method RectFloats(bm: BlockManager, current: Pos, e: Pos) returns (isFloating: bool)
    requires bm.Valid()
    requires IsWhole(e.x - current.x) && IsWhole(e.z - current.z)
    ensures isFloating == AllFloat(bm.Cells(), WalkRect(current, e))
  {
    var s := bm.Cells();
    var row := current;
    isFloating := true;
    while row.x != e.x
      invariant IsWhole(e.x - row.x) && row.z == current.z
      invariant AllFloat(s, WalkRect(current, e)) == (isFloating && AllFloat(s, WalkRect(row, e)))
      decreases Abs(e.x - row.x)
    {
      var rowFloats := RunFloats(bm, row, e);
      isFloating := isFloating && rowFloats;
      row := StepBlock(row, e, false);
    }
  }

  /** FloorTile.IsFloatingArea: the z line, the x line or the rectangle of the selection. */
  method IsFloatingArea(bm: BlockManager, start: Pos, end: Pos) returns (isFloating: bool)
    requires bm.Valid()
    requires Aligned(start, end)
    ensures isFloating == AllFloat(bm.Cells(), Visited(start, end))
  {
    var e := AdjustEnd(start, end);
    if start.x == e.x {
      isFloating := RunFloats(bm, start, e);
    } else if start.z == e.z {
      isFloating := LineFloats(bm, start, e);
    } else {
      isFloating := RectFloats(bm, start, e);
    }
  }

  /** FloorTile.IsFloating(start, end) */
  method IsFloating(bm: BlockManager, start: Pos, end: Pos) returns (isFloating: bool)
    requires bm.Valid()
    requires start.y > 0 && start != end ==> Aligned(start, end)
    ensures isFloating == Floating(bm.Cells(), start, end)
  {
    isFloating := false;
    if start.y > 0 {
      if start == end {
        isFloating := IsFloatingCell(bm, end);
      } else {
        isFloating := IsFloatingArea(bm, start, end);
      }
    }
  }

  /** FloorTile.IsValidLocation */
  method IsValidLocation(bm: BlockManager, start: Pos, end: Pos) returns (valid: bool)
    requires bm.Valid()
    requires IsAreaValid(start, end) && start.y > 0 && start != end ==> Aligned(start, end)
    ensures valid == ValidLocation(bm.Cells(), start, end)
  {
    valid := IsAreaValid(start, end);
    if valid {
      var floating := IsFloating(bm, start, end);
      valid := !floating && (start != end || !bm.IsBlockerTileSet(end));
    }
  }

  // ---------------------------------------------------------------------
  // Placing

  /**
   * The selected object can be copied while tiles are placed: it is in the
   * scene, below the next fresh id, and not registered as a tile.
   */
  ghost predicate CanCopy(w: World, original: ObjId) {
    && original in w.objects && original < w.nextId
    && (forall id | id in w.objects :: id < w.nextId)
    && (forall p | p in w.cells :: w.cells[p].floorTile != PlacedTile(original))
  }

  /**
   * FloorTile.PutTile: on a blocker cell nothing happens; otherwise a copy
   * of the selected tile is made, moved to p, parented under the active
   * floor and recorded as p's tile, and the tile it replaces is destroyed.
   */
  function PutTileSpec(w: World, original: ObjId, floor: ObjId, p: Pos): (r: (World, Option<ObjId>))
    requires CanCopy(w, original)
    ensures CanCopy(r.0, original)
  {
    if IsBlockerTileSet(w.cells, p) then (w, None)
    else
      var id := w.nextId;
      var objs := w.objects[id := w.objects[original].(parent := Some(floor), position := p)];
      var objs' := match CellAt(w.cells, p).floorTile
        case PlacedTile(t) => objs - {t}
        case _ => objs;
      (World(PutFloorTile(w.cells, p, id), objs', id + 1), Some(id))
  }

  /** PutTile over a list of cells, in order, with the copies made. */
  function PutTiles(w: World, original: ObjId, floor: ObjId, cells: seq<Pos>): (r: (World, seq<Option<ObjId>>))
    requires CanCopy(w, original)
    ensures CanCopy(r.0, original)
    ensures |r.1| == |cells|
    decreases |cells|
  {
    if cells == [] then (w, [])
    else
      var (w1, id) := PutTileSpec(w, original, floor, cells[0]);
      var (w2, ids) := PutTiles(w1, original, floor, cells[1..]);
      (w2, [id] + ids)
  }

  /**
   * FloorTile.Place: a single cell gives [PutTile(end)]; an x line or a
   * rectangle gives one entry per visited cell; a z line places its tiles
   * but gives an empty list.
   */
  function PlaceSpec(w: World, original: ObjId, floor: ObjId, start: Pos, end: Pos): (World, seq<Option<ObjId>>)
    requires CanCopy(w, original)
    requires start != end ==> Aligned(start, end)
  {
    if start == end then PutTiles(w, original, floor, [end])
    else if start.x == end.x then (PutTiles(w, original, floor, Visited(start, end)).0, [])
    else PutTiles(w, original, floor, Visited(start, end))
  }

  /** Placing a + b is placing a, then b from where a left off. */
  lemma {:induction false} PutTilesAppend(w: World, original: ObjId, floor: ObjId, a: seq<Pos>, b: seq<Pos>)
    requires CanCopy(w, original)
    ensures PutTiles(w, original, floor, a + b).0 == PutTiles(PutTiles(w, original, floor, a).0, original, floor, b).0
    ensures PutTiles(w, original, floor, a + b).1
         == PutTiles(w, original, floor, a).1 + PutTiles(PutTiles(w, original, floor, a).0, original, floor, b).1
    decreases |a|
  {
    if a == [] {
      assert a + b == b;
      assert [] + PutTiles(w, original, floor, b).1 == PutTiles(w, original, floor, b).1;
    } else {
      var c, rest := a[0], a[1..];
      assert a == [c] + rest;
      assert a + b == [c] + (rest + b);
      var (w1, id) := PutTileSpec(w, original, floor, c);
      PutTilesCons(w, original, floor, c, rest + b);
      PutTilesCons(w, original, floor, c, rest);
      PutTilesAppend(w1, original, floor, rest, b);
      var r1 := PutTiles(w1, original, floor, rest);
      var r2 := PutTiles(r1.0, original, floor, b);
      SeqAssoc([id], r1.1, r2.1);
    }
  }

  lemma SeqAssoc<T>(x: seq<T>, y: seq<T>, z: seq<T>)
    ensures x + (y + z) == (x + y) + z
  {
  }

  /** One PutTile at c, as seen from any cell p. */
  lemma PutTileSpecEffect(w: World, original: ObjId, floor: ObjId, c: Pos, p: Pos)
    requires CanCopy(w, original)
    ensures var (r, id) := PutTileSpec(w, original, floor, c);
      && (c == p && !IsBlockerTileSet(w.cells, p) ==>
            HasTile(r.cells, p) && w.nextId <= r.cells[p].floorTile.id < r.nextId)
      && (IsBlockerTileSet(r.cells, p) <==> IsBlockerTileSet(w.cells, p))
      && (c != p ==> CellAt(r.cells, p) == CellAt(w.cells, p) && (p in r.cells <==> p in w.cells))
      && CellAt(r.cells, p).wall == CellAt(w.cells, p).wall
      && CellAt(r.cells, p).blockObject == CellAt(w.cells, p).blockObject
      && (id.None? <==> IsBlockerTileSet(w.cells, c))
      && w.nextId <= r.nextId
  {
    if !IsBlockerTileSet(w.cells, c) {
      PutFloorTileEffect(w.cells, c, w.nextId, p);
    }
  }

  /**
   * Placing tiles leaves blocker tiles, walls, block objects and every
   * unlisted cell as they were, and only moves the next fresh id forward.
   */
  lemma {:induction false} PutTilesFrame(w: World, original: ObjId, floor: ObjId, cells: seq<Pos>, p: Pos)
    requires CanCopy(w, original)
    ensures var r := PutTiles(w, original, floor, cells).0;
      && (IsBlockerTileSet(r.cells, p) <==> IsBlockerTileSet(w.cells, p))
      && (p !in cells ==> CellAt(r.cells, p) == CellAt(w.cells, p) && (p in r.cells <==> p in w.cells))
      && CellAt(r.cells, p).wall == CellAt(w.cells, p).wall
      && CellAt(r.cells, p).blockObject == CellAt(w.cells, p).blockObject
      && w.nextId <= r.nextId
    decreases |cells|
  {
    if cells != [] {
      var w1 := PutTileSpec(w, original, floor, cells[0]).0;
      PutTileSpecEffect(w, original, floor, cells[0], p);
      PutTilesFrame(w1, original, floor, cells[1..], p);
      assert p !in cells ==> p !in cells[1..];
    }
  }

  /** Every listed cell without a blocker ends up with a tile copied during the call. */
  lemma {:induction false} PutTilesCovers(w: World, original: ObjId, floor: ObjId, cells: seq<Pos>, p: Pos)
    requires CanCopy(w, original)
    requires p in cells && !IsBlockerTileSet(w.cells, p)
    ensures var r := PutTiles(w, original, floor, cells).0;
      HasTile(r.cells, p) && w.nextId <= r.cells[p].floorTile.id < r.nextId
    decreases |cells|
  {
    var w1 := PutTileSpec(w, original, floor, cells[0]).0;
    PutTileSpecEffect(w, original, floor, cells[0], p);
    if p in cells[1..] {
      PutTilesCovers(w1, original, floor, cells[1..], p);
    } else {
      assert p == cells[0];
      PutTilesFrame(w1, original, floor, cells[1..], p);
    }
  }

  /** The entry returned for a cell is None exactly when that cell held a blocker. */
  lemma {:induction false} PutTilesIds(w: World, original: ObjId, floor: ObjId, cells: seq<Pos>)
    requires CanCopy(w, original)
    ensures var ids := PutTiles(w, original, floor, cells).1;
      forall k | 0 <= k < |cells| :: ids[k].None? <==> IsBlockerTileSet(w.cells, cells[k])
    decreases |cells|
  {
    if cells != [] {
      var (w1, id) := PutTileSpec(w, original, floor, cells[0]);
      PutTilesIds(w1, original, floor, cells[1..]);
      var ids := PutTiles(w, original, floor, cells).1;
      var ids1 := PutTiles(w1, original, floor, cells[1..]).1;
      assert ids == [id] + ids1;
      forall k | 0 <= k < |cells|
        ensures ids[k].None? <==> IsBlockerTileSet(w.cells, cells[k])
      {
        PutTileSpecEffect(w, original, floor, cells[0], cells[k]);
        if k > 0 {
          assert cells[1..][k - 1] == cells[k];
        }
      }
    }
  }

  /**
   * What placing tiles does to the store: every listed cell without a
   * blocker ends up with a real tile, copied after the call began; blocker
   * tiles stay where they were; every other cell is untouched; and the
   * entry returned for a cell is None exactly when it held a blocker.
   */
  lemma PutTilesEffect(w: World, original: ObjId, floor: ObjId, cells: seq<Pos>, p: Pos)
    requires CanCopy(w, original)
    ensures var (r, ids) := PutTiles(w, original, floor, cells);
      && (p in cells && !IsBlockerTileSet(w.cells, p) ==>
            HasTile(r.cells, p) && w.nextId <= r.cells[p].floorTile.id < r.nextId)
      && (IsBlockerTileSet(r.cells, p) <==> IsBlockerTileSet(w.cells, p))
      && (p !in cells ==> CellAt(r.cells, p) == CellAt(w.cells, p) && (p in r.cells <==> p in w.cells))
      && CellAt(r.cells, p).wall == CellAt(w.cells, p).wall
      && CellAt(r.cells, p).blockObject == CellAt(w.cells, p).blockObject
      && (forall k | 0 <= k < |cells| :: ids[k].None? <==> IsBlockerTileSet(w.cells, cells[k]))
      && w.nextId <= r.nextId
  {
    PutTilesFrame(w, original, floor, cells, p);
    PutTilesIds(w, original, floor, cells);
    if p in cells && !IsBlockerTileSet(w.cells, p) {
      PutTilesCovers(w, original, floor, cells, p);
    }
  }

  // ---------------------------------------------------------------------
  // Placing while the active floor is outside the floor array

  /** n null entries: what Place collects over cells that all hold a blocker. */
  function Blanks(n: nat): seq<Option<ObjId>> {
    seq(n, k => None)
  }

  /** The first listed cell without a blocker: where PutTile makes its first copy. */
  function FirstFree(s: Store, cells: seq<Pos>): Option<Pos> {
    if cells == [] then None
    else if !IsBlockerTileSet(s, cells[0]) then Some(cells[0])
    else FirstFree(s, cells[1..])
  }

  /**
   * PutTile over cells when AssignToCurrentFloor raises: cells with a
   * blocker are skipped as always; at the first free cell the copy is made
   * and moved there, the raise ends the placement and the store is never
   * written. Without a free cell nothing happens and every entry is null.
   */
  function PutTilesRaising(w: World, original: ObjId, cells: seq<Pos>): (World, seq<Option<ObjId>>, bool)
    requires original in w.objects
  {
    match FirstFree(w.cells, cells)
    case Some(p) => (Stranded(w, original, p), [], true)
    case None => (w, Blanks(|cells|), false)
  }

  /** The cells FloorTile.Place calls PutTile on, in order: end alone, or the cells visited. */
  function Selected(start: Pos, end: Pos): seq<Pos>
    requires start != end ==> Aligned(start, end)
  {
    if start == end then [end] else Visited(start, end)
  }

  /** FloorTile.Place when the active floor is outside the floor array; a z line still collects nothing. */
  function PlaceRaising(w: World, original: ObjId, start: Pos, end: Pos): (World, seq<Option<ObjId>>, bool)
    requires original in w.objects
    requires start != end ==> Aligned(start, end)
  {
    var r := PutTilesRaising(w, original, Selected(start, end));
    if start != end && start.x == end.x then (r.0, [], r.2) else r
  }

  /** The first free cell of a + b is a's, if a has one, and b's otherwise. */
  lemma {:induction false} FirstFreeAppend(s: Store, a: seq<Pos>, b: seq<Pos>)
    ensures FirstFree(s, a + b) == if FirstFree(s, a).Some? then FirstFree(s, a) else FirstFree(s, b)
    decreases |a|
  {
    if a == [] {
      assert a + b == b;
    } else {
      assert (a + b)[0] == a[0] && (a + b)[1..] == a[1..] + b;
      FirstFreeAppend(s, a[1..], b);
    }
  }

  /**
   * FirstFree finds a free cell exactly when one is listed, and the one it
   * finds is the earliest: every cell before it holds a blocker.
   */
  lemma {:induction false} FirstFreeIsEarliest(s: Store, cells: seq<Pos>)
    ensures FirstFree(s, cells).None? <==> forall k | 0 <= k < |cells| :: IsBlockerTileSet(s, cells[k])
    ensures FirstFree(s, cells).Some? ==>
      exists k | 0 <= k < |cells| :: cells[k] == FirstFree(s, cells).value && !IsBlockerTileSet(s, cells[k])
        && forall j | 0 <= j < k :: IsBlockerTileSet(s, cells[j])
    decreases |cells|
  {
    if cells != [] {
      FirstFreeIsEarliest(s, cells[1..]);
      if IsBlockerTileSet(s, cells[0]) && FirstFree(s, cells).Some? {
        var k :| 0 <= k < |cells[1..]| && cells[1..][k] == FirstFree(s, cells).value && !IsBlockerTileSet(s, cells[1..][k])
          && forall j | 0 <= j < k :: IsBlockerTileSet(s, cells[1..][j]);
        assert cells[k + 1] == cells[1..][k];
        assert forall j | 0 <= j < k + 1 :: IsBlockerTileSet(s, cells[j]) by {
          forall j | 0 <= j < k + 1
            ensures IsBlockerTileSet(s, cells[j])
          {
            if j > 0 {
              assert cells[j] == cells[1..][j - 1];
            }
          }
        }
      }
      if FirstFree(s, cells).None? {
        forall k | 0 <= k < |cells|
          ensures IsBlockerTileSet(s, cells[k])
        {
          if k > 0 {
            assert cells[k] == cells[1..][k - 1];
          }
        }
      }
    }
  }

  /** PutTilesRaising by the first free cell. */
  lemma RaisingOutcome(w: World, original: ObjId, cells: seq<Pos>, first: Option<Pos>)
    requires original in w.objects && first == FirstFree(w.cells, cells)
    ensures first.Some? ==> PutTilesRaising(w, original, cells) == (Stranded(w, original, first.value), [], true)
    ensures first.None? ==> PutTilesRaising(w, original, cells) == (w, Blanks(|cells|), false)
  {
  }

  /**
   * What placing tiles does when AssignToCurrentFloor raises: the store is
   * left as it was; it raises exactly when some listed cell has no
   * blocker, and then the one object added is a parentless copy at the
   * earliest such cell; otherwise every entry is null and nothing changes.
   */
  lemma PutTilesRaisingEffect(w: World, original: ObjId, cells: seq<Pos>)
    requires CanCopy(w, original)
    ensures var (r, ids, raised) := PutTilesRaising(w, original, cells);
      && r.cells == w.cells
      && (raised <==> exists k | 0 <= k < |cells| :: !IsBlockerTileSet(w.cells, cells[k]))
      && (raised ==> exists k | 0 <= k < |cells| ::
            && (forall j | 0 <= j < k :: IsBlockerTileSet(w.cells, cells[j]))
            && r.objects == w.objects[w.nextId := w.objects[original].(parent := None, position := cells[k])]
            && r.nextId == w.nextId + 1)
      && (!raised ==> r == w && |ids| == |cells| && forall k | 0 <= k < |ids| :: ids[k].None?)
  {
    FirstFreeIsEarliest(w.cells, cells);
    if FirstFree(w.cells, cells).Some? {
      StrandedCopyIsOrphan(w, original, FirstFree(w.cells, cells).value);
    }
  }

  // ---------------------------------------------------------------------
  // Methods

  /** The id of the scene object a placed component is attached to; None for null. */
  function IdOf(t: PlaceableObject?): Option<ObjId> {
    if t == null then None else Some(t.gameObject)
  }

  /** The ids of the scene objects the placed components are attached to. */
  function Ids(placed: seq<PlaceableObject?>): seq<Option<ObjId>> {
    if placed == [] then [] else Ids(placed[..|placed| - 1]) + [IdOf(placed[|placed| - 1])]
  }

  /**
   * FloorTile.PutTile. When the active floor is outside the floor array,
   * a free cell gets its copy and then AssignToCurrentFloor raises: the
   * store is not written and raised is true.
   */
  method PutTile(tile: PlaceableObject, bm: BlockManager, scene: Scene, floors: BuildingFloorManager, p: Pos)
    returns (placed: PlaceableObject?, raised: bool)
    requires bm.Valid() && scene.Valid() && CanCopy(State(bm, scene), tile.gameObject)
    modifies bm, bm.Repr, scene
    ensures bm.Valid() && scene.Valid()
    ensures floors.Container().Some? ==> !raised
    ensures floors.Container().Some? ==>
      var (w, id) := PutTileSpec(old(State(bm, scene)), tile.gameObject, floors.Container().value, p);
      State(bm, scene) == w && IdOf(placed) == id
    ensures floors.Container().None? ==>
      && (raised <==> !IsBlockerTileSet(old(bm.Cells()), p))
      && (raised ==> State(bm, scene) == Stranded(old(State(bm, scene)), tile.gameObject, p))
      && (!raised ==> State(bm, scene) == old(State(bm, scene)) && placed == null)
    ensures fresh(bm.Repr - old(bm.Repr))
  {
    var blocked := bm.IsBlockerTileSet(p);
    if !blocked {
      placed, raised := PutCopy(tile, bm, scene, floors, p);
    } else {
      placed, raised := null, false;
    }
  }

  /** PutTile on a cell without a blocker: the copy is made, placed and recorded. */
  method PutCopy(tile: PlaceableObject, bm: BlockManager, scene: Scene, floors: BuildingFloorManager, p: Pos)
    returns (placed: PlaceableObject, raised: bool)
    requires bm.Valid() && scene.Valid() && CanCopy(State(bm, scene), tile.gameObject)
    requires !IsBlockerTileSet(bm.Cells(), p)
    modifies bm, bm.Repr, scene
    ensures bm.Valid() && scene.Valid()
    ensures raised <==> floors.Container().None?
    ensures floors.Container().Some? ==>
      var (w, id) := PutTileSpec(old(State(bm, scene)), tile.gameObject, floors.Container().value, p);
      State(bm, scene) == w && id == Some(placed.gameObject)
    ensures raised ==> State(bm, scene) == Stranded(old(State(bm, scene)), tile.gameObject, p)
    ensures fresh(bm.Repr - old(bm.Repr))
  {
    var ok;
    placed, ok := MakeCopy(tile, scene, floors, p);
    raised := !ok;
    if raised {
      return;
    }
    var _ := bm.PutFloorTile(scene, placed.gameObject, p);
  }

  lemma PutTilesCons(w: World, original: ObjId, floor: ObjId, c: Pos, rest: seq<Pos>)
    requires CanCopy(w, original)
    ensures var (w1, id) := PutTileSpec(w, original, floor, c);
      var (w2, ids) := PutTiles(w1, original, floor, rest);
      PutTiles(w, original, floor, [c] + rest) == (w2, [id] + ids)
  {
    assert ([c] + rest)[0] == c && ([c] + rest)[1..] == rest;
  }

  /**
   * What is left of a placement: PutTile over cells from w, after the ids
   * done so far, gives the final world and ids.
   */
  ghost predicate Pending(w: World, original: ObjId, floor: ObjId, cells: seq<Pos>,
                          done: seq<Option<ObjId>>, final: (World, seq<Option<ObjId>>)) {
    && CanCopy(w, original)
    && PutTiles(w, original, floor, cells).0 == final.0
    && done + PutTiles(w, original, floor, cells).1 == final.1
  }

  /**
   * What is left of a placement that raises once it copies: the cells
   * done so far all held a blocker, so the first free cell of those left is
   * the first free cell of them all, and the total number of cells is known.
   */
  ghost predicate Skipping(w: World, original: ObjId, cells: seq<Pos>, done: seq<Option<ObjId>>,
                           first: Option<Pos>, total: nat) {
    && CanCopy(w, original)
    && FirstFree(w.cells, cells) == first
    && done == Blanks(|done|)
    && |done| + |cells| == total
  }

  /** Skipping past one cell that holds a blocker adds one null entry. */
  lemma SkipBlocked(w: World, original: ObjId, c: Pos, rest: seq<Pos>, done: seq<Option<ObjId>>,
                    first: Option<Pos>, total: nat)
    requires Skipping(w, original, [c] + rest, done, first, total)
    requires IsBlockerTileSet(w.cells, c)
    ensures Skipping(w, original, rest, done + [None], first, total)
  {
    assert ([c] + rest)[0] == c && ([c] + rest)[1..] == rest;
    assert done + [None] == Blanks(|done| + 1);
  }

  /** Skipping past a run without a free cell adds the run's null entries. */
  lemma SkipRun(w: World, original: ObjId, run: seq<Pos>, rest: seq<Pos>, done: seq<Option<ObjId>>,
                runIds: seq<Option<ObjId>>, first: Option<Pos>, total: nat)
    requires Skipping(w, original, run + rest, done, first, total)
    requires FirstFree(w.cells, run).None? && runIds == Blanks(|run|)
    ensures Skipping(w, original, rest, done + runIds, first, total)
  {
    FirstFreeAppend(w.cells, run, rest);
    assert done + runIds == Blanks(|done| + |run|);
  }

  /** Both kinds of what is left, by whether the active floor is in the floor array. */
  ghost predicate Left(w: World, original: ObjId, floor: Option<ObjId>, cells: seq<Pos>, done: seq<Option<ObjId>>,
                       final: (World, seq<Option<ObjId>>), first: Option<Pos>, total: nat) {
    && (floor.Some? ==> Pending(w, original, floor.value, cells, done, final))
    && (floor.None? ==> Skipping(w, original, cells, done, first, total))
  }

  /**
   * One iteration of Place's loops: PutTile at the head c of the cells
   * still to do, its component appended to those placed so far.
   */
  method PlaceNext(tile: PlaceableObject, bm: BlockManager, scene: Scene, floors: BuildingFloorManager,
                   placedTiles: seq<PlaceableObject?>, c: Pos, rest: seq<Pos>,
                   ghost final: (World, seq<Option<ObjId>>), ghost first: Option<Pos>, ghost total: nat)
    returns (placed: seq<PlaceableObject?>, raised: bool)
    requires bm.Valid() && scene.Valid()
    requires Left(State(bm, scene), tile.gameObject, floors.Container(), [c] + rest, Ids(placedTiles), final, first, total)
    modifies bm, bm.Repr, scene
    ensures bm.Valid() && scene.Valid()
    ensures raised ==> floors.Container().None? && first == Some(c)
                       && State(bm, scene) == Stranded(old(State(bm, scene)), tile.gameObject, c)
    ensures !raised ==> Left(State(bm, scene), tile.gameObject, floors.Container(), rest, Ids(placed), final, first, total)
    ensures !raised && floors.Container().None? ==> State(bm, scene) == old(State(bm, scene))
    ensures fresh(bm.Repr - old(bm.Repr))
  {
    ghost var floor := floors.Container();
    ghost var w := State(bm, scene);
    if floor.Some? {
      PutTilesCons(State(bm, scene), tile.gameObject, floor.value, c, rest);
    } else {
      assert ([c] + rest)[0] == c && ([c] + rest)[1..] == rest;
    }
    ghost var ids := if floor.Some? then PutTiles(State(bm, scene), tile.gameObject, floor.value, [c] + rest).1 else [];
    var t;
    t, raised := PutTile(tile, bm, scene, floors, c);
    placed := placedTiles + [t];
    if floor.Some? {
      IdsStep(placedTiles, t, ids, PutTiles(State(bm, scene), tile.gameObject, floor.value, rest).1, final.1);
    } else if !raised {
      IdsAppend(placedTiles, t);
      SkipBlocked(w, tile.gameObject, c, rest, Ids(placedTiles), first, total);
    }
  }

  /** Appending one component appends its id. */
  lemma IdsAppend(placed: seq<PlaceableObject?>, t: PlaceableObject?)
    ensures Ids(placed + [t]) == Ids(placed) + [IdOf(t)]
  {
    assert (placed + [t])[..|placed|] == placed;
  }

  /** Nothing pending: the world and ids are the final ones. */
  lemma PendingDone(w: World, original: ObjId, floor: ObjId, done: seq<Option<ObjId>>, final: (World, seq<Option<ObjId>>))
    requires Pending(w, original, floor, [], done, final)
    ensures w == final.0 && done == final.1
  {
    assert done + [] == done;
  }

  /** At the start everything is pending. */
  lemma PendingStart(w: World, original: ObjId, floor: ObjId, cells: seq<Pos>)
    requires CanCopy(w, original)
    ensures Pending(w, original, floor, cells, [], PutTiles(w, original, floor, cells))
  {
    assert [] + PutTiles(w, original, floor, cells).1 == PutTiles(w, original, floor, cells).1;
  }

  /** At the start of a run, whatever the active floor, everything is left. */
  lemma LeftStart(w: World, original: ObjId, floor: Option<ObjId>, cells: seq<Pos>)
    requires CanCopy(w, original)
    ensures Left(w, original, floor, cells, [], if floor.Some? then PutTiles(w, original, floor.value, cells) else (w, []),
                 FirstFree(w.cells, cells), |cells|)
  {
    if floor.Some? {
      PendingStart(w, original, floor.value, cells);
    }
  }

  /**
   * The end of a run, whatever the active floor: the world and ids are the
   * final ones, or, out of range, nothing was free and every entry is null.
   */
  lemma LeftDone(w: World, original: ObjId, floor: Option<ObjId>, done: seq<Option<ObjId>>,
                 final: (World, seq<Option<ObjId>>), first: Option<Pos>, total: nat)
    requires Left(w, original, floor, [], done, final, first, total)
    ensures floor.Some? ==> w == final.0 && done == final.1
    ensures floor.None? ==> first.None? && done == Blanks(total)
  {
    if floor.Some? {
      PendingDone(w, original, floor.value, done, final);
    }
  }

  /** One iteration of the z run loop: PutTile at c, then one step toward e. */
  method PlaceStepZ(tile: PlaceableObject, bm: BlockManager, scene: Scene, floors: BuildingFloorManager,
                    placedTiles: seq<PlaceableObject?>, c: Pos, e: Pos,
                    ghost final: (World, seq<Option<ObjId>>), ghost first: Option<Pos>, ghost total: nat)
    returns (placed: seq<PlaceableObject?>, raised: bool, next: Pos)
    requires IsWhole(e.z - c.z) && c.z != e.z
    requires bm.Valid() && scene.Valid()
    requires Left(State(bm, scene), tile.gameObject, floors.Container(), WalkZ(c, e), Ids(placedTiles), final, first, total)
    modifies bm, bm.Repr, scene
    ensures bm.Valid() && scene.Valid()
    ensures next == StepBlock(c, e, true) && IsWhole(e.z - next.z) && Abs(e.z - next.z) < Abs(e.z - c.z)
    ensures raised ==> floors.Container().None? && first == Some(c)
                       && State(bm, scene) == Stranded(old(State(bm, scene)), tile.gameObject, c)
    ensures !raised ==> Left(State(bm, scene), tile.gameObject, floors.Container(), WalkZ(next, e), Ids(placed), final, first, total)
    ensures !raised && floors.Container().None? ==> State(bm, scene) == old(State(bm, scene))
    ensures fresh(bm.Repr - old(bm.Repr))
  {
    next := StepBlock(c, e, true);
    placed, raised := PlaceNext(tile, bm, scene, floors, placedTiles, c, WalkZ(next, e), final, first, total);
  }

  /**
   * A z run of FloorTile.Place: PutTile at each cell of the run, in order,
   * with the placed components collected.
   */
  method PlaceAlongZ(tile: PlaceableObject, bm: BlockManager, scene: Scene, floors: BuildingFloorManager,
                     current: Pos, e: Pos) returns (placedTiles: seq<PlaceableObject?>, raised: bool)
    requires IsWhole(e.z - current.z)
    requires bm.Valid() && scene.Valid() && CanCopy(State(bm, scene), tile.gameObject)
    modifies bm, bm.Repr, scene
    ensures bm.Valid() && scene.Valid()
    ensures floors.Container().Some? ==> !raised
    ensures floors.Container().Some? ==>
      var r := PutTiles(old(State(bm, scene)), tile.gameObject, floors.Container().value, WalkZ(current, e));
      State(bm, scene) == r.0 && Ids(placedTiles) == r.1
    ensures floors.Container().None? ==>
      var r := PutTilesRaising(old(State(bm, scene)), tile.gameObject, WalkZ(current, e));
      State(bm, scene) == r.0 && raised == r.2 && (!raised ==> Ids(placedTiles) == r.1)
    ensures fresh(bm.Repr - old(bm.Repr))
  {
    ghost var floor := floors.Container();
    ghost var w0 := State(bm, scene);
    ghost var final := if floor.Some? then PutTiles(w0, tile.gameObject, floor.value, WalkZ(current, e)) else (w0, []);
    ghost var first := FirstFree(w0.cells, WalkZ(current, e));
    ghost var total := |WalkZ(current, e)|;
    LeftStart(w0, tile.gameObject, floor, WalkZ(current, e));
    var c := current;
    placedTiles, raised := [], false;
    while c.z != e.z
      invariant IsWhole(e.z - c.z)
      invariant bm.Valid() && scene.Valid() && fresh(bm.Repr - old(bm.Repr))
      invariant Left(State(bm, scene), tile.gameObject, floor, WalkZ(c, e), Ids(placedTiles), final, first, total)
      invariant floor.None? ==> State(bm, scene) == w0
      decreases Abs(e.z - c.z)
    {
      placedTiles, raised, c := PlaceStepZ(tile, bm, scene, floors, placedTiles, c, e, final, first, total);
      if raised {
        RaisingOutcome(w0, tile.gameObject, WalkZ(current, e), first);
        return;
      }
    }
    LeftDone(State(bm, scene), tile.gameObject, floor, Ids(placedTiles), final, first, total);
    RaisingOutcome(w0, tile.gameObject, WalkZ(current, e), first);
  }

  /** One iteration of the x run loop: PutTile at c, then one step toward e. */
  method PlaceStepX(tile: PlaceableObject, bm: BlockManager, scene: Scene, floors: BuildingFloorManager,
                    placedTiles: seq<PlaceableObject?>, c: Pos, e: Pos,
                    ghost final: (World, seq<Option<ObjId>>), ghost first: Option<Pos>, ghost total: nat)
    returns (placed: seq<PlaceableObject?>, raised: bool, next: Pos)
    requires IsWhole(e.x - c.x) && c.x != e.x
    requires bm.Valid() && scene.Valid()
    requires Left(State(bm, scene), tile.gameObject, floors.Container(), WalkX(c, e), Ids(placedTiles), final, first, total)
    modifies bm, bm.Repr, scene
    ensures bm.Valid() && scene.Valid()
    ensures next == StepBlock(c, e, false) && IsWhole(e.x - next.x) && Abs(e.x - next.x) < Abs(e.x - c.x)
    ensures raised ==> floors.Container().None? && first == Some(c)
                       && State(bm, scene) == Stranded(old(State(bm, scene)), tile.gameObject, c)
    ensures !raised ==> Left(State(bm, scene), tile.gameObject, floors.Container(), WalkX(next, e), Ids(placed), final, first, total)
    ensures !raised && floors.Container().None? ==> State(bm, scene) == old(State(bm, scene))
    ensures fresh(bm.Repr - old(bm.Repr))
  {
    next := StepBlock(c, e, false);
    placed, raised := PlaceNext(tile, bm, scene, floors, placedTiles, c, WalkX(next, e), final, first, total);
  }

  /** The x line of FloorTile.Place: PutTile at each cell, in order, with the placed components collected. */
  method PlaceAlongX(tile: PlaceableObject, bm: BlockManager, scene: Scene, floors: BuildingFloorManager,
                     current: Pos, e: Pos) returns (placedTiles: seq<PlaceableObject?>, raised: bool)
    requires IsWhole(e.x - current.x)
    requires bm.Valid() && scene.Valid() && CanCopy(State(bm, scene), tile.gameObject)
    modifies bm, bm.Repr, scene
    ensures bm.Valid() && scene.Valid()
    ensures floors.Container().Some? ==> !raised
    ensures floors.Container().Some? ==>
      var r := PutTiles(old(State(bm, scene)), tile.gameObject, floors.Container().value, WalkX(current, e));
      State(bm, scene) == r.0 && Ids(placedTiles) == r.1
    ensures floors.Container().None? ==>
      var r := PutTilesRaising(old(State(bm, scene)), tile.gameObject, WalkX(current, e));
      State(bm, scene) == r.0 && raised == r.2 && (!raised ==> Ids(placedTiles) == r.1)
  {
    ghost var floor := floors.Container();
    ghost var w0 := State(bm, scene);
    ghost var final := if floor.Some? then PutTiles(w0, tile.gameObject, floor.value, WalkX(current, e)) else (w0, []);
    ghost var first := FirstFree(w0.cells, WalkX(current, e));
    ghost var total := |WalkX(current, e)|;
    LeftStart(w0, tile.gameObject, floor, WalkX(current, e));
    var c := current;
    placedTiles, raised := [], false;
    while c.x != e.x
      invariant IsWhole(e.x - c.x)
      invariant bm.Valid() && scene.Valid() && fresh(bm.Repr - old(bm.Repr))
      invariant Left(State(bm, scene), tile.gameObject, floor, WalkX(c, e), Ids(placedTiles), final, first, total)
      invariant floor.None? ==> State(bm, scene) == w0
      decreases Abs(e.x - c.x)
    {
      placedTiles, raised, c := PlaceStepX(tile, bm, scene, floors, placedTiles, c, e, final, first, total);
      if raised {
        RaisingOutcome(w0, tile.gameObject, WalkX(current, e), first);
        return;
      }
    }
    LeftDone(State(bm, scene), tile.gameObject, floor, Ids(placedTiles), final, first, total);
    RaisingOutcome(w0, tile.gameObject, WalkX(current, e), first);
  }

  /** The rectangle of FloorTile.Place: a z run from each row start, row by row along x. */
  method PlaceRect(tile: PlaceableObject, bm: BlockManager, scene: Scene, floors: BuildingFloorManager,
                   current: Pos, e: Pos) returns (placedTiles: seq<PlaceableObject?>, raised: bool)
    requires IsWhole(e.x - current.x) && IsWhole(e.z - current.z)
    requires bm.Valid() && scene.Valid() && CanCopy(State(bm, scene), tile.gameObject)
    modifies bm, bm.Repr, scene
    ensures bm.Valid() && scene.Valid()
    ensures floors.Container().Some? ==> !raised
    ensures floors.Container().Some? ==>
      var r := PutTiles(old(State(bm, scene)), tile.gameObject, floors.Container().value, WalkRect(current, e));
      State(bm, scene) == r.0 && Ids(placedTiles) == r.1
    ensures floors.Container().None? ==>
      var r := PutTilesRaising(old(State(bm, scene)), tile.gameObject, WalkRect(current, e));
      State(bm, scene) == r.0 && raised == r.2 && (!raised ==> Ids(placedTiles) == r.1)
  {
    ghost var floor := floors.Container();
    ghost var w0 := State(bm, scene);
    ghost var final := if floor.Some? then PutTiles(w0, tile.gameObject, floor.value, WalkRect(current, e)) else (w0, []);
    ghost var first := FirstFree(w0.cells, WalkRect(current, e));
    ghost var total := |WalkRect(current, e)|;
    LeftStart(w0, tile.gameObject, floor, WalkRect(current, e));
    var row := current;
    placedTiles, raised := [], false;
    while row.x != e.x
      invariant IsWhole(e.x - row.x) && IsWhole(e.z - row.z)
      invariant bm.Valid() && scene.Valid() && fresh(bm.Repr - old(bm.Repr))
      invariant Left(State(bm, scene), tile.gameObject, floor, WalkRect(row, e), Ids(placedTiles), final, first, total)
      invariant floor.None? ==> State(bm, scene) == w0
      decreases Abs(e.x - row.x)
    {
      placedTiles, raised, row := PlaceRow(tile, bm, scene, floors, placedTiles, row, e, final, first, total);
      if raised {
        RaisingOutcome(w0, tile.gameObject, WalkRect(current, e), first);
        return;
      }
    }
    assert WalkRect(row, e) == [];
    LeftDone(State(bm, scene), tile.gameObject, floor, Ids(placedTiles), final, first, total);
    RaisingOutcome(w0, tile.gameObject, WalkRect(current, e), first);
  }

  /**
   * One iteration of PlaceRect's loop: the z run from the row start, its
   * components appended to those placed so far.
   */
  method PlaceRow(tile: PlaceableObject, bm: BlockManager, scene: Scene, floors: BuildingFloorManager,
                  placedTiles: seq<PlaceableObject?>, row: Pos, e: Pos,
                  ghost final: (World, seq<Option<ObjId>>), ghost first: Option<Pos>, ghost total: nat)
    returns (placed: seq<PlaceableObject?>, raised: bool, next: Pos)
    requires IsWhole(e.x - row.x) && IsWhole(e.z - row.z) && row.x != e.x
    requires bm.Valid() && scene.Valid()
    requires Left(State(bm, scene), tile.gameObject, floors.Container(), WalkRect(row, e), Ids(placedTiles), final, first, total)
    modifies bm, bm.Repr, scene
    ensures bm.Valid() && scene.Valid()
    ensures next == StepBlock(row, e, false) && IsWhole(e.x - next.x) && IsWhole(e.z - next.z)
    ensures Abs(e.x - next.x) < Abs(e.x - row.x)
    ensures raised ==> floors.Container().None? && first.Some?
                       && State(bm, scene) == Stranded(old(State(bm, scene)), tile.gameObject, first.value)
    ensures !raised ==> Left(State(bm, scene), tile.gameObject, floors.Container(), WalkRect(next, e), Ids(placed), final, first, total)
    ensures !raised && floors.Container().None? ==> State(bm, scene) == old(State(bm, scene))
    ensures fresh(bm.Repr - old(bm.Repr))
  {
    placed := placedTiles;
    next := StepBlock(row, e, false);
    ghost var floor := floors.Container();
    ghost var w := State(bm, scene);
    assert WalkRect(row, e) == WalkZ(row, e) + WalkRect(next, e);
    if floor.Some? {
      RowStep(w, tile.gameObject, floor.value, row, next, e, Ids(placedTiles), final);
    } else {
      FirstFreeAppend(w.cells, WalkZ(row, e), WalkRect(next, e));
    }
    var run;
    run, raised := PlaceAlongZ(tile, bm, scene, floors, row, e);
    if raised {
      return;
    }
    IdsConcat(placedTiles, run);
    placed := placedTiles + run;
    if floor.None? {
      RaisingOutcome(w, tile.gameObject, WalkZ(row, e), FirstFree(w.cells, WalkZ(row, e)));
      SkipRun(w, tile.gameObject, WalkZ(row, e), WalkRect(next, e), Ids(placedTiles), Ids(run), first, total);
    }
  }

  /**
   * Placing a rectangle from row is placing the z run from row, then the
   * rectangle from the next row.
   */
  lemma RowStep(w: World, original: ObjId, floor: ObjId, row: Pos, next: Pos, e: Pos,
                done: seq<Option<ObjId>>, final: (World, seq<Option<ObjId>>))
    requires IsWhole(e.x - row.x) && IsWhole(e.z - row.z) && row.x != e.x
    requires next == StepBlock(row, e, false) && IsWhole(e.x - next.x) && IsWhole(e.z - next.z)
    requires Pending(w, original, floor, WalkRect(row, e), done, final)
    ensures var z := PutTiles(w, original, floor, WalkZ(row, e));
      Pending(z.0, original, floor, WalkRect(next, e), done + z.1, final)
  {
    var z := PutTiles(w, original, floor, WalkZ(row, e));
    var r := PutTiles(z.0, original, floor, WalkRect(next, e));
    assert WalkRect(row, e) == WalkZ(row, e) + WalkRect(next, e);
    PutTilesAppend(w, original, floor, WalkZ(row, e), WalkRect(next, e));
    assert (done + z.1) + r.1 == done + (z.1 + r.1);
  }

  lemma IdsStep(placed: seq<PlaceableObject?>, t: PlaceableObject?, ids: seq<Option<ObjId>>,
                rest: seq<Option<ObjId>>, final: seq<Option<ObjId>>)
    requires Ids(placed) + ids == final && ids == [IdOf(t)] + rest
    ensures Ids(placed + [t]) + rest == final
  {
    IdsAppend(placed, t);
  }

  lemma {:induction false} IdsConcat(a: seq<PlaceableObject?>, b: seq<PlaceableObject?>)
    ensures Ids(a + b) == Ids(a) + Ids(b)
    decreases |b|
  {
    if b == [] {
      assert a + b == a;
    } else {
      var b' := b[..|b| - 1];
      assert a + b == (a + b') + [b[|b| - 1]];
      IdsAppend(a + b', b[|b| - 1]);
      IdsConcat(a, b');
      IdsAppend(b', b[|b| - 1]);
      assert b' + [b[|b| - 1]] == b;
    }
  }

  /**
   * FloorTile.Place: one cell, a z line (whose components are not
   * collected), an x line or a rectangle. When the active floor is outside
   * the floor array, the first cell without a blocker gets its copy and
   * AssignToCurrentFloor raises, which ends the placement.
   */
  method Place(tile: PlaceableObject, bm: BlockManager, scene: Scene, floors: BuildingFloorManager, start: Pos, end: Pos)
    returns (placedTiles: seq<PlaceableObject?>, raised: bool)
    requires bm.Valid() && scene.Valid() && CanCopy(State(bm, scene), tile.gameObject)
    requires start != end ==> Aligned(start, end)
    modifies bm, bm.Repr, scene
    ensures bm.Valid() && scene.Valid()
    ensures floors.Container().Some? ==> !raised
    ensures floors.Container().Some? ==>
      var r := PlaceSpec(old(State(bm, scene)), tile.gameObject, floors.Container().value, start, end);
      State(bm, scene) == r.0 && Ids(placedTiles) == r.1
    ensures floors.Container().None? ==>
      var r := PlaceRaising(old(State(bm, scene)), tile.gameObject, start, end);
      State(bm, scene) == r.0 && raised == r.2 && (!raised ==> Ids(placedTiles) == r.1)
  {
    placedTiles := [];
    if start == end {
      ghost var floor := floors.Container();
      if floor.Some? {
        PutTilesCons(State(bm, scene), tile.gameObject, floor.value, end, []);
      }
      assert [end] + [] == [end] && [end][1..] == [];
      var t;
      t, raised := PutTile(tile, bm, scene, floors, end);
      assert Blanks(1) == [None];
      RaisingOutcome(old(State(bm, scene)), tile.gameObject, [end], FirstFree(old(bm.Cells()), [end]));
      assert Selected(start, end) == [end];
      IdsAppend([], t);
      placedTiles := placedTiles + [t];
    } else {
      var current := start;
      var e := AdjustEnd(current, end);
      if start.x == e.x {
        var _, r := PlaceAlongZ(tile, bm, scene, floors, current, e);
        raised := r;
      } else if start.z == e.z {
        placedTiles, raised := PlaceAlongX(tile, bm, scene, floors, current, e);
      } else {
        placedTiles, raised := PlaceRect(tile, bm, scene, floors, current, e);
      }
    }
  }

  /**
   * FloorTile.PickUp: clears the tile channel of the record at the tile's
   * own position and moves the tile to the temp holder. Without a record
   * the source dereferences null: ok is false and nothing changes.
   */
  method PickUp(tile: PlaceableObject, bm: BlockManager, scene: Scene, floors: BuildingFloorManager)
    returns (ok: bool)
    requires bm.Valid() && scene.Valid() && tile.gameObject in scene.objects
    modifies bm, bm.Repr, scene
    ensures bm.Valid() && scene.Valid()
    ensures var p := old(scene.objects[tile.gameObject].position);
      && (ok <==> p in old(bm.Cells()))
      && (ok ==> bm.Cells() == ClearTile(old(bm.Cells()), p)
                 && scene.objects == old(scene.objects)[tile.gameObject :=
                      old(scene.objects[tile.gameObject]).(parent := Some(floors.tempFloor))])
      && (!ok ==> bm.Cells() == old(bm.Cells()) && scene.objects == old(scene.objects))
  {
    var b := bm.GetBlock(scene.objects[tile.gameObject].position, false);
    if b == null {
      ok := false;
      return;
    }
    ClearTileAt(bm, b, scene.objects[tile.gameObject].position);
    ok := true;
    floors.AssignToTempFloor(scene, tile.gameObject);
  }

  /** The write of PickUp: the record b at p loses its tile. */
  method ClearTileAt(bm: BlockManager, b: Block, ghost p: Pos)
    requires bm.Valid() && p in bm.blocks && bm.blocks[p] == b
    modifies bm, b
    ensures bm.Valid() && bm.blocks == old(bm.blocks) && bm.Repr == old(bm.Repr)
    ensures p in old(bm.Cells()) && bm.Cells() == ClearTile(old(bm.Cells()), p)
  {
    b.floorTile := NoTile;
    bm.cells := ClearTile(bm.cells, p);
    forall q | q in bm.blocks
      ensures bm.blocks[q].View() == bm.cells[q]
    {
      if q != p {
        assert bm.blocks[q] != b;
      }
    }
  }

  /** The store after PickUp: the tile channel of p emptied. */
  function ClearTile(s: Store, p: Pos): Store
    requires p in s
  {
    s[p := s[p].(floorTile := NoTile)]
  }

  /**
   * Picking a tile up after placing it on a cell that held no tile leaves
   * the cell as it was, wall and object channels included.
   */
  lemma PlaceThenPickUpRestoresCell(w: World, original: ObjId, floor: ObjId, p: Pos)
    requires CanCopy(w, original) && p in w.cells && w.cells[p].floorTile == NoTile
    ensures var r := PutTileSpec(w, original, floor, p).0;
      p in r.cells && ClearTile(r.cells, p)[p] == w.cells[p]
  {
  }
}
