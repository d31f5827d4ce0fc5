/**
 * Block.cs and BlockManager.cs: the sparse store from grid position to a
 * mutable three-channel record. Each record is a heap object, as in the
 * source; the ghost function Cells gives the store's value, and every
 * method is specified by the functions of module Occupancy.
 */
module BlockStore {
  import opened Wrappers
  import opened Grid
  import opened Occupancy
  import opened Scenes

  /** Block.cs: the occupancy record of one position. */
  class Block {
    var wall: Option<ObjId>
    var floorTile: TileRef
    var blockObject: Option<ObjId>

    /** A new record has all three channels empty. */
    constructor()
      ensures wall == None && floorTile == NoTile && blockObject == None
    {
      wall := None;
      floorTile := NoTile;
      blockObject := None;
    }

    function View(): Cell
      reads this
    {
      Cell(wall, floorTile, blockObject)
    }
  }

  class BlockManager {
    var blocks: map<Pos, Block>
    /** The value of the store: the contents of the record at each position. */
    ghost var cells: Store
    /** The records this manager owns. */
    ghost var Repr: set<Block>

    /** No record is shared between two positions, and cells holds their contents. */
    ghost predicate Valid()
      reads this, blocks.Values
    {
      && (forall p, q | p in blocks && q in blocks && p != q :: blocks[p] != blocks[q])
      && (forall p | p in cells :: p in blocks)
      && (forall p | p in blocks :: p in cells && blocks[p].View() == cells[p])
      && (forall p | p in blocks :: blocks[p] in Repr)
    }

    ghost function Cells(): Store
      reads this
    {
      cells
    }

    constructor()
      ensures Valid() && Cells() == map[]
    {
      blocks := map[];
      cells := map[];
      Repr := {};
    }

    /** BlockManager.Reset: forget every record. */
    method Reset()
      modifies this
      ensures Valid() && Cells() == map[]
    {
      blocks := map[];
      cells := map[];
      Repr := {};
    }

    /** GetBlock without the add flag: the record at p, or null. */
    function Lookup(p: Pos): (b: Block?)
      reads this
      ensures b == null <==> p !in blocks
      ensures b != null ==> b == blocks[p]
    {
      if p in blocks then blocks[p] else null
    }

    /**
     * BlockManager.GetBlock. Without `add` nothing changes; with it the
     * position has a record afterwards: the old one if there was one, or a
     * fresh empty one.
     */
    method GetBlock(p: Pos, add: bool) returns (b: Block?)
      requires Valid()
      modifies this
      ensures Valid()
      ensures add ==> b != null
      ensures blocks == if add && p !in old(blocks) then old(blocks)[p := b] else old(blocks)
      ensures cells == if add && p !in old(blocks) then old(cells)[p := EmptyCell] else old(cells)
      ensures add ==> p in blocks && blocks[p] == b
      ensures !add ==> b == old(Lookup(p))
      ensures add && p !in old(blocks) ==> fresh(b)
      ensures fresh(Repr - old(Repr))
    {
      b := Lookup(p);
      if b == null && add {
        b := new Block();
        blocks := blocks[p := b];
        cells := cells[p := EmptyCell];
        Repr := Repr + {b};
      }
    }

    /** BlockManager.GetWallBlock: the record at the wall position of p for the object's yaw. */
    method GetWallBlock(yaw: Yaw, p: Pos, add: bool) returns (b: Block?)
      requires Valid()
      modifies this
      ensures Valid()
      ensures add ==> b != null
      ensures var k := WallPosition(p, yaw);
        && blocks == (if add && k !in old(blocks) then old(blocks)[k := b] else old(blocks))
        && cells == (if add && k !in old(blocks) then old(cells)[k := EmptyCell] else old(cells))
        && (add ==> b != null && k in blocks && blocks[k] == b)
        && (!add ==> b == old(Lookup(k)))
        && (add && k !in old(blocks) ==> fresh(b))
      ensures fresh(Repr - old(Repr))
    {
      b := GetBlock(WallPosition(p, yaw), add);
    }

    /**
     * BlockManager.PutFloorTile: the tile replaces (and destroys) any
     * placed tile, but a blocker tile stays.
     */
    method PutFloorTile(scene: Scene, tile: ObjId, p: Pos) returns (b: Block)
      requires Valid() && scene.Valid()
      modifies this, Repr, scene
      ensures Valid() && scene.Valid() && scene.nextId == old(scene.nextId)
      ensures p in blocks && blocks[p] == b
      ensures Cells() == Occupancy.PutFloorTile(old(Cells()), p, tile)
      ensures scene.objects == match CellAt(old(Cells()), p).floorTile
        case PlacedTile(t) => old(scene.objects) - {t}
        case _ => old(scene.objects)
      ensures blocks == if p in old(blocks) then old(blocks) else old(blocks)[p := b]
      ensures p !in old(blocks) ==> fresh(b)
      ensures fresh(Repr - old(Repr))
    {
      b := GetBlock(p, true);
      if b.floorTile != Blocker {
        if b.floorTile.PlacedTile? {
          scene.Destroy(b.floorTile.id);
        }
        b.floorTile := PlacedTile(tile);
      }
      cells := Occupancy.PutFloorTile(old(cells), p, tile);
      forall q | q in blocks
        ensures blocks[q].View() == cells[q]
      {
        if q != p {
          assert blocks[q] != b;
        }
      }
    }

    /** BlockManager.PutWall: the wall channel at the wall position, record created if needed. */
    method PutWall(yaw: Yaw, wall: ObjId, p: Pos) returns (b: Block)
      requires Valid()
      modifies this, Repr
      ensures Valid()
      ensures Cells() == Occupancy.PutWall(old(Cells()), p, yaw, wall)
      ensures var k := WallPosition(p, yaw);
        && blocks == (if k in old(blocks) then old(blocks) else old(blocks)[k := b])
        && (k !in old(blocks) ==> fresh(b))
      ensures fresh(Repr - old(Repr))
    {
      b := GetWallBlock(yaw, p, true);
      b.wall := Some(wall);
      cells := Occupancy.PutWall(old(cells), p, yaw, wall);
      forall q | q in blocks
        ensures blocks[q].View() == cells[q]
      {
        if q != WallPosition(p, yaw) {
          assert blocks[q] != b;
        }
      }
    }

    /**
     * BlockManager.PutWallObject: the wall object becomes a child of the
     * wall recorded at the wall position, if there is one. The record must
     * exist (the source dereferences it).
     */
    method PutWallObject(scene: Scene, yaw: Yaw, wallObject: ObjId, p: Pos) returns (b: Block)
      requires Valid() && scene.Valid() && wallObject in scene.objects
      requires WallPosition(p, yaw) in blocks
      modifies scene
      ensures scene.Valid() && scene.nextId == old(scene.nextId)
      ensures b == blocks[WallPosition(p, yaw)]
      ensures scene.objects == match Cells()[WallPosition(p, yaw)].wall
        case Some(w) => old(scene.objects)[wallObject := old(scene.objects)[wallObject].(parent := Some(w))]
        case None => old(scene.objects)
    {
      b := blocks[WallPosition(p, yaw)];
      if b.wall.Some? {
        scene.SetParent(wallObject, Some(b.wall.value));
      }
    }

    /**
     * BlockManager.PutObject: every offset cell around the rounded-up base
     * gets the object, and when it spans several floors the cells past the
     * first blockOffsets.Count / floorCount also get the blocker tile.
     */
    method PutObject(item: ObjId, offsets: seq<Pos>, floorCount: int, position: Pos) returns (placed: seq<Block>)
      requires Valid()
      modifies this, Repr
      ensures Valid()
      ensures |placed| == |offsets|
      ensures var base := Pos(CeilWhole(position.x), position.y, CeilWhole(position.z));
        Cells() == Occupancy.PutObject(old(Cells()), base, offsets, FloorBlocksLimit(|offsets|, floorCount), item, |offsets|)
      ensures fresh(Repr - old(Repr))
    {
      var base := Pos(CeilWhole(position.x), position.y, CeilWhole(position.z));
      placed := [];
      var limit := FloorBlocksLimit(|offsets|, floorCount);
      var i := 0;
      while i < |offsets|
        invariant 0 <= i <= |offsets|
        invariant Valid()
        invariant Cells() == Occupancy.PutObject(old(Cells()), base, offsets, limit, item, i)
        invariant |placed| == i
        invariant fresh(Repr - old(Repr))
      {
        var b := PutObjectAt(base.Plus(offsets[i]), item, i >= limit);
        placed := placed + [b];
        i := i + 1;
      }
    }

    /** One iteration of PutObject's loop: the record at k gets the object, and the blocker if asked. */
    method PutObjectAt(k: Pos, item: ObjId, blocker: bool) returns (b: Block)
      requires Valid()
      modifies this, Repr
      ensures Valid()
      ensures k in blocks && blocks[k] == b
      ensures Cells() == Occupancy.PutObjectAt(old(Cells()), k, item, blocker)
      ensures blocks == if k in old(blocks) then old(blocks) else old(blocks)[k := b]
      ensures k !in old(blocks) ==> fresh(b)
      ensures fresh(Repr - old(Repr))
    {
      b := GetBlock(k, true);
      b.blockObject := Some(item);
      if blocker {
        b.floorTile := Blocker;
      }
      cells := Occupancy.PutObjectAt(old(cells), k, item, blocker);
      forall q | q in blocks
        ensures blocks[q].View() == cells[q]
      {
        if q != k {
          assert blocks[q] != b;
        }
      }
    }

    /** BlockManager.HasTile */
    function HasTile(p: Pos): (r: bool)
      reads this, blocks.Values
      requires Valid()
      ensures r == Occupancy.HasTile(Cells(), p)
    {
      p in blocks && blocks[p].floorTile.PlacedTile?
    }

    /** BlockManager.IsBlockerTileSet */
    function IsBlockerTileSet(p: Pos): (r: bool)
      reads this, blocks.Values
      requires Valid()
      ensures r == Occupancy.IsBlockerTileSet(Cells(), p)
    {
      p in blocks && blocks[p].floorTile == Blocker
    }

    /** BlockManager.IsNextToTile: scans the four unit neighbours, stopping at the first tile. */
    method IsNextToTile(p: Pos) returns (r: bool)
      requires Valid()
      ensures r == Occupancy.IsNextToTile(Cells(), p)
    {
      var positions := UnitNeighbours(p);
      r := false;
      var i := 0;
      while i < |positions|
        invariant 0 <= i <= |positions|
        invariant !r ==> forall j | 0 <= j < i :: !Occupancy.HasTile(Cells(), positions[j])
        invariant r ==> Occupancy.IsNextToTile(Cells(), p)
      {
        if HasTile(positions[i]) {
          r := true;
          break;
        }
        i := i + 1;
      }
    }

    /** BlockManager.IsNextToWall: scans the four half-unit neighbours, stopping at the first wall. */
    method IsNextToWall(p: Pos) returns (r: bool)
      requires Valid()
      ensures r == Occupancy.IsNextToWall(Cells(), p)
    {
      var positions := HalfNeighbours(p);
      r := false;
      var i := 0;
      while i < |positions|
        invariant 0 <= i <= |positions|
        invariant !r ==> forall j | 0 <= j < i :: !Occupancy.HasWall(Cells(), positions[j])
        invariant r ==> Occupancy.IsNextToWall(Cells(), p)
      {
        var b := Lookup(positions[i]);
        if b != null && b.wall.Some? {
          r := true;
          break;
        }
        i := i + 1;
      }
    }

    /** BlockManager.IsAreaEmpty for a single position. */
    function IsCellEmpty(p: Pos): (r: bool)
      reads this, blocks.Values
      requires Valid()
      ensures r == Occupancy.IsCellEmpty(Cells(), p)
    {
      var b := Lookup(p);
      b == null || b.blockObject.None?
    }
  }

  /** How many leading footprint entries are ground-floor entries. */
  function FloorBlocksLimit(count: nat, floorCount: int): int {
    if floorCount > 1 then count / floorCount else count
  }
}
