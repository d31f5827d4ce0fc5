/**
 * The occupancy record of one grid position (Block.cs) as a value, and the
 * read-only queries of BlockManager.cs stated over a whole store of such
 * values. The class-based store in block_manager.dfy is proved against
 * these definitions.
 */
module Occupancy {
  import opened Wrappers
  import opened Grid

  /** Scene objects are referred to by id. */
  type ObjId = nat

  /**
   * The floor-tile channel: empty, the shared invisible blocker tile that
   * multi-floor objects put on the floors they reach into, or a placed tile.
   */
  datatype TileRef = NoTile | Blocker | PlacedTile(id: ObjId)

  /** The three independent channels of a Block. */
  datatype Cell = Cell(wall: Option<ObjId>, floorTile: TileRef, blockObject: Option<ObjId>)

  /** A freshly created Block: all channels empty. */
  const EmptyCell: Cell := Cell(None, NoTile, None)

  /** The whole store, by exact position. */
  type Store = map<Pos, Cell>

  /** A lookup that treats an absent record like an empty one. */
  function CellAt(s: Store, p: Pos): Cell {
    if p in s then s[p] else EmptyCell
  }

  /** BlockManager.HasTile: a real (non-blocker) tile is recorded at p. */
  predicate HasTile(s: Store, p: Pos) {
    p in s && s[p].floorTile.PlacedTile?
  }

  /** BlockManager.IsBlockerTileSet */
  predicate IsBlockerTileSet(s: Store, p: Pos) {
    p in s && s[p].floorTile == Blocker
  }

  /** The four neighbours one whole unit away, in the order BlockManager.IsNextToTile checks them. */
  function UnitNeighbours(p: Pos): (r: seq<Pos>)
    ensures |r| == 4
  {
    [Pos(p.x - UNIT, p.y, p.z), Pos(p.x + UNIT, p.y, p.z),
     Pos(p.x, p.y, p.z - UNIT), Pos(p.x, p.y, p.z + UNIT)]
  }

  /** The four neighbours half a unit away, in the order BlockManager.IsNextToWall checks them. */
  function HalfNeighbours(p: Pos): (r: seq<Pos>)
    ensures |r| == 4
  {
    [Pos(p.x - 1, p.y, p.z), Pos(p.x + 1, p.y, p.z),
     Pos(p.x, p.y, p.z - 1), Pos(p.x, p.y, p.z + 1)]
  }

  /** BlockManager.IsNextToTile: one of the four unit neighbours on the same floor has a tile. */
  predicate IsNextToTile(s: Store, p: Pos) {
    exists i :: 0 <= i < 4 && HasTile(s, UnitNeighbours(p)[i])
  }

  predicate HasWall(s: Store, p: Pos) {
    p in s && s[p].wall.Some?
  }

  /** BlockManager.IsNextToWall: one of the four half-unit neighbours holds a wall. */
  predicate IsNextToWall(s: Store, p: Pos) {
    exists i :: 0 <= i < 4 && HasWall(s, HalfNeighbours(p)[i])
  }

  /** The neighbour test spelled out without the neighbour list. */
  lemma NextToTileExplicit(s: Store, p: Pos)
    ensures IsNextToTile(s, p) <==>
      HasTile(s, Pos(p.x - UNIT, p.y, p.z)) || HasTile(s, Pos(p.x + UNIT, p.y, p.z)) ||
      HasTile(s, Pos(p.x, p.y, p.z - UNIT)) || HasTile(s, Pos(p.x, p.y, p.z + UNIT))
  {
    if HasTile(s, Pos(p.x - UNIT, p.y, p.z)) { assert HasTile(s, UnitNeighbours(p)[0]); }
    if HasTile(s, Pos(p.x + UNIT, p.y, p.z)) { assert HasTile(s, UnitNeighbours(p)[1]); }
    if HasTile(s, Pos(p.x, p.y, p.z - UNIT)) { assert HasTile(s, UnitNeighbours(p)[2]); }
    if HasTile(s, Pos(p.x, p.y, p.z + UNIT)) { assert HasTile(s, UnitNeighbours(p)[3]); }
  }

  /**
   * A wall next to p is exactly a wall placed from p's own cell at one of
   * the four yaws.
   */
  lemma NextToWallMeansWallAtSomeYaw(s: Store, p: Pos)
    ensures IsNextToWall(s, p) <==> exists yaw: Yaw :: HasWall(s, WallPosition(p, yaw))
  {
    if IsNextToWall(s, p) {
      var i :| 0 <= i < 4 && HasWall(s, HalfNeighbours(p)[i]);
      var yaw: Yaw := if i == 0 then 180 else if i == 1 then 0 else if i == 2 then 90 else 270;
      assert WallPosition(p, yaw) == HalfNeighbours(p)[i];
    }
    if exists yaw: Yaw :: HasWall(s, WallPosition(p, yaw)) {
      var yaw: Yaw :| HasWall(s, WallPosition(p, yaw));
      var i := if yaw == 180 then 0 else if yaw == 0 then 1 else if yaw == 90 then 2 else 3;
      assert WallPosition(p, yaw) == HalfNeighbours(p)[i];
    }
  }

  /** BlockManager.IsAreaEmpty, single-position case: no blocking object recorded at p. */
  predicate IsCellEmpty(s: Store, p: Pos) {
    p !in s || s[p].blockObject.None?
  }

  // ---------------------------------------------------------------------
  // Writes, as functions of the store

  /**
   * BlockManager.PutFloorTile: creates the record if needed; a blocker tile
   * is left in place, anything else is replaced by the new tile.
   */
  function PutFloorTile(s: Store, p: Pos, tile: ObjId): Store {
    var c := CellAt(s, p);
    s[p := if c.floorTile == Blocker then c else c.(floorTile := PlacedTile(tile))]
  }

  /** BlockManager.PutWall: the wall channel at the wall position. */
  function PutWall(s: Store, p: Pos, yaw: Yaw, wall: ObjId): Store {
    var k := WallPosition(p, yaw);
    s[k := CellAt(s, k).(wall := Some(wall))]
  }

  /** One step of BlockManager.PutObject: offset index i of the footprint. */
  function PutObjectAt(s: Store, k: Pos, item: ObjId, blocker: bool): Store {
    var c := CellAt(s, k).(blockObject := Some(item));
    s[k := if blocker then c.(floorTile := Blocker) else c]
  }

  /**
   * BlockManager.PutObject over the first n offsets: every offset cell gets
   * the object; those at index >= limit also get the blocker tile.
   */
  function PutObject(s: Store, base: Pos, offsets: seq<Pos>, limit: int, item: ObjId, n: nat): Store
    requires n <= |offsets|
  {
    if n == 0 then s
    else PutObjectAt(PutObject(s, base, offsets, limit, item, n - 1),
                     base.Plus(offsets[n - 1]), item, n - 1 >= limit)
  }

  /** The positions a footprint covers from a base position. */
  function Covered(base: Pos, offsets: seq<Pos>, n: nat): set<Pos>
    requires n <= |offsets|
  {
    set i | 0 <= i < n :: base.Plus(offsets[i])
  }

  /** The positions that receive the blocker tile. */
  function Blocked(base: Pos, offsets: seq<Pos>, limit: int, n: nat): set<Pos>
    requires n <= |offsets|
  {
    set i | 0 <= i < n && i >= limit :: base.Plus(offsets[i])
  }

  /**
   * What PutObject does, cell by cell: covered cells hold the object,
   * blocked cells the blocker tile, walls are never touched, and every
   * other record is left as it was.
   */
  lemma {:induction false} PutObjectEffect(s: Store, base: Pos, offsets: seq<Pos>, limit: int, item: ObjId, n: nat, p: Pos)
    requires n <= |offsets|
    ensures var r := PutObject(s, base, offsets, limit, item, n);
      && r.Keys == s.Keys + Covered(base, offsets, n)
      && (p in Covered(base, offsets, n) ==>
            r[p] == Cell(CellAt(s, p).wall,
                         if p in Blocked(base, offsets, limit, n) then Blocker else CellAt(s, p).floorTile,
                         Some(item)))
      && (p !in Covered(base, offsets, n) && p in s ==> r[p] == s[p])
  {
    if n > 0 {
      PutObjectEffect(s, base, offsets, limit, item, n - 1, p);
      var k := base.Plus(offsets[n - 1]);
      assert Covered(base, offsets, n) == Covered(base, offsets, n - 1) + {k};
      if n - 1 >= limit {
        assert Blocked(base, offsets, limit, n) == Blocked(base, offsets, limit, n - 1) + {k};
      } else {
        assert Blocked(base, offsets, limit, n) == Blocked(base, offsets, limit, n - 1);
      }
    }
  }

  /** The channels are independent: PutFloorTile changes nothing but the tile channel at p. */
  lemma PutFloorTileEffect(s: Store, p: Pos, tile: ObjId, q: Pos)
    ensures var r := PutFloorTile(s, p, tile);
      && r.Keys == s.Keys + {p}
      && r[p].wall == CellAt(s, p).wall && r[p].blockObject == CellAt(s, p).blockObject
      && (r[p].floorTile == if IsBlockerTileSet(s, p) then Blocker else PlacedTile(tile))
      && (q != p && q in s ==> r[q] == s[q])
  {
  }

  /** PutWall changes nothing but the wall channel at the wall position. */
  lemma PutWallEffect(s: Store, p: Pos, yaw: Yaw, wall: ObjId, q: Pos)
    ensures var r := PutWall(s, p, yaw, wall);
      var k := WallPosition(p, yaw);
      && r.Keys == s.Keys + {k}
      && r[k] == Cell(Some(wall), CellAt(s, k).floorTile, CellAt(s, k).blockObject)
      && (q != k && q in s ==> r[q] == s[q])
  {
  }

  /**
   * A record may hold a wall and a blocking object at once: the store
   * itself rejects nothing; conflicts are the validators' business.
   */
  lemma WallAndObjectCoexist(p: Pos, yaw: Yaw, w: ObjId, o: ObjId)
    ensures var s := PutWall(map[], p, yaw, w);
      var k := WallPosition(p, yaw);
      var r := PutObject(s, k, [Pos(0, 0, 0)], 1, o, 1);
      r[k].wall == Some(w) && r[k].blockObject == Some(o) && r[k].floorTile == NoTile
  {
    var s := PutWall(map[], p, yaw, w);
    var k := WallPosition(p, yaw);
    assert k.Plus(Pos(0, 0, 0)) == k;
  }
}
