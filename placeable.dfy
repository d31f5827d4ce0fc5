/**
 * PlaceableObject.cs: the component every placeable kind shares. It keeps
 * the object's footprint (deltas, floor count, block offsets) computed from
 * its mesh bounds; the transform it belongs to lives in the scene.
 */
module Placeables {
  import opened Wrappers
  import opened Grid
  import opened Occupancy
  import opened Scenes
  import opened Footprint
  import opened BlockStore
  import opened Floors

  /** The six placeable kinds. */
  datatype Kind = FloorTileKind | WallKind | WallObjectKind | CommonObjectKind | WallPaintKind | RoofKind

  /** The world-space extents of a mesh with local extents `local` turned by yaw. */
  function WorldSize(local: Size, yaw: Yaw): Size {
    if yaw == 0 || yaw == 180 then local else Size(local.z, local.y, local.x)
  }

  /** PlaceableObject.Rotate: a quarter turn, (yaw + 90) mod 360. */
  function NextYaw(yaw: Yaw): Yaw {
    (yaw + 90) % 360
  }

  /** Wall.Rotate: walls only alternate between 0 and 90. */
  function NextWallYaw(yaw: Yaw): Yaw {
    if yaw == 0 then 90 else 0
  }

  /** What the placement code reads and writes: the block store and the scene. */
  datatype World = World(cells: Store, objects: Objects, nextId: ObjId)

  ghost function State(bm: BlockManager, scene: Scene): World
    reads bm, scene
  {
    World(bm.Cells(), scene.objects, scene.nextId)
  }

  /** Four quarter turns come back to the start; two give the opposite yaw. */
  lemma QuarterTurns(yaw: Yaw)
    ensures NextYaw(NextYaw(NextYaw(NextYaw(yaw)))) == yaw
    ensures NextYaw(NextYaw(yaw)) == Opposite(yaw)
    ensures NextYaw(yaw) != yaw
  {
  }

  /** A wall rotated twice is back where it started, once it has been rotated at least once. */
  lemma WallTurnsAlternate(yaw: Yaw)
    ensures NextWallYaw(yaw) == 0 || NextWallYaw(yaw) == 90
    ensures NextWallYaw(NextWallYaw(NextWallYaw(yaw))) == NextWallYaw(yaw)
    ensures NextWallYaw(NextWallYaw(yaw)) == yaw <==> yaw == 0 || yaw == 90
  {
  }

  /** A quarter turn swaps the world extents along x and z, so the footprint's membership is transposed. */
  lemma QuarterTurnTransposesFootprint(local: Size, yaw: Yaw, p: Pos)
    ensures var s := WorldSize(local, yaw);
      var t := WorldSize(local, NextYaw(yaw));
      p in BaseOffsets(CellCount(s.x), CellCount(s.z)) <==>
        Pos(p.z, p.y, p.x) in BaseOffsets(CellCount(t.x), CellCount(t.z))
  {
    var s := WorldSize(local, yaw);
    var t := WorldSize(local, NextYaw(yaw));
    var x, z := CellCount(s.x), CellCount(s.z);
    assert CellCount(t.x) == z && CellCount(t.z) == x;
    BaseMembership(x, z, p);
    BaseMembership(z, x, Pos(p.z, p.y, p.x));
    if p in BaseOffsets(x, z) {
      var i, j :| 0 <= i < Steps(x) && 0 <= j < Steps(z) && Kept(i, j) && p == Offset(x, z, i, j);
      assert Pos(p.z, p.y, p.x) == Offset(z, x, j, i);
    }
    if Pos(p.z, p.y, p.x) in BaseOffsets(z, x) {
      var j, i :| 0 <= j < Steps(z) && 0 <= i < Steps(x) && Kept(j, i) && Pos(p.z, p.y, p.x) == Offset(z, x, j, i);
      assert p == Offset(x, z, i, j);
    }
  }

  lemma CopiesStep(b: Pos, n: int)
    requires n >= 1
    ensures Copies(b, n + 1) == Copies(b, n) + [Lifted(b, n)]
  {
    if n == 1 {
      assert Copies(b, 2) == [Lifted(b, 1)];
    } else {
      var l, r := Copies(b, n + 1), Copies(b, n) + [Lifted(b, n)];
      assert |l| == |r|;
      forall k | 0 <= k < |l|
        ensures l[k] == r[k]
      {
      }
    }
  }

  /**
   * The loops of PlaceableObject.CalculateBlockOffsets for world extents
   * `size`: the nested half-step loops, then the upper-floor copies
   * appended after the ground entries.
   */
  method ComputeBlockOffsets(size: Size, floorCount: int) returns (offsets: seq<Pos>)
    ensures offsets == BlockOffsets(size, floorCount)
  {
    var x := CellCount(size.x);
    var z := CellCount(size.z);
    if x <= 1 && z <= 1 {
      offsets := [Pos(0, 0, 0)];
    } else {
      offsets := GroundOffsets(x, z);
      if floorCount > 1 {
        offsets := AddUpperFloors(offsets, floorCount);
      }
    }
  }

  /** The nested half-step loops over an x by z cell area. */
  method GroundOffsets(x: nat, z: nat) returns (offsets: seq<Pos>)
    ensures offsets == BaseOffsets(x, z)
  {
    offsets := [];
    var i := 0;
    while i < 2 * x - 1
      invariant 0 <= i <= Steps(x)
      invariant offsets == Rows(x, z, i)
    {
      var j := 0;
      while j < 2 * z - 1
        invariant 0 <= j <= Steps(z)
        invariant offsets == Rows(x, z, i) + Row(x, z, i, j)
      {
        if Kept(i, j) {
          offsets := offsets + [Offset(x, z, i, j)];
        }
        j := j + 1;
      }
      i := i + 1;
    }
  }

  /** The loop that appends, for each ground entry in order, its copies on the upper floors. */
  method AddUpperFloors(base: seq<Pos>, floorCount: int) returns (offsets: seq<Pos>)
    requires floorCount > 1
    ensures offsets == base + Upper(base, floorCount, |base|)
  {
    var additional: seq<Pos> := [];
    var k := 0;
    while k < |base|
      invariant 0 <= k <= |base|
      invariant additional == Upper(base, floorCount, k)
    {
      var n := 1;
      while n < floorCount
        invariant 1 <= n <= floorCount
        invariant additional == Upper(base, floorCount, k) + Copies(base[k], n)
      {
        CopiesStep(base[k], n);
        additional := additional + [Lifted(base[k], n)];
        n := n + 1;
      }
      k := k + 1;
    }
    offsets := base + additional;
  }


  /**
   * What every kind's Put helper does first: GameObject.Instantiate of the
   * selected object, its component copied with it, moved to p and parented
   * under the active floor's container. When the active floor is outside
   * the array, AssignToCurrentFloor raises: ok is false and the copy is
   * left where Instantiate put it, with no parent.
   */
  method MakeCopy(tile: PlaceableObject, scene: Scene, floors: BuildingFloorManager, p: Pos)
    returns (placed: PlaceableObject, ok: bool)
    requires scene.Valid() && tile.gameObject in scene.objects
    modifies scene
    ensures scene.Valid()
    ensures ok <==> 0 <= floors.activeFloor < floors.buildingFloors.Length
    ensures placed.gameObject == old(scene.nextId) && scene.nextId == old(scene.nextId) + 1
    ensures scene.objects == old(scene.objects)[placed.gameObject :=
      old(scene.objects)[tile.gameObject].(parent := floors.Container(), position := p)]
    ensures fresh(placed)
    ensures placed.kind == tile.kind && placed.blockOffsets == tile.blockOffsets && placed.floorCount == tile.floorCount
    ensures placed.wallMesh == tile.wallMesh && placed.originalWallMesh == tile.originalWallMesh
  {
    var id := scene.Instantiate(tile.gameObject);
    placed := new PlaceableObject.Clone(tile, id);
    scene.SetPosition(id, p);
    ok := floors.AssignToCurrentFloor(scene, id);
  }

  /**
   * The world a Put helper leaves when AssignToCurrentFloor raises: the
   * copy of original exists at p with no parent, and the store was never
   * written.
   */
  function Stranded(w: World, original: ObjId, p: Pos): World
    requires original in w.objects
  {
    World(w.cells, w.objects[w.nextId := w.objects[original].(parent := None, position := p)], w.nextId + 1)
  }

  /**
   * A raise in AssignToCurrentFloor leaves the store as it was and every
   * existing object as it was; the one thing added is a fresh object that
   * belongs to no floor, so it is shown and hidden with none of them.
   */
  lemma StrandedCopyIsOrphan(w: World, original: ObjId, p: Pos)
    requires original in w.objects && forall c | c in w.objects :: c < w.nextId
    ensures var r := Stranded(w, original, p);
      && r.cells == w.cells
      && r.nextId == w.nextId + 1
      && r.objects.Keys == w.objects.Keys + {w.nextId}
      && (forall c | c in w.objects :: r.objects[c] == w.objects[c])
      && r.objects[w.nextId].parent.None? && r.objects[w.nextId].position == p
      && forall c | c in r.objects :: c < r.nextId
  {
  }

  class PlaceableObject {
    /** The scene object this component is attached to. */
    const gameObject: ObjId
    const kind: Kind
    /** The object's MeshRenderer, by the extents of its local bounds; None when it has none. */
    const renderer: Option<Size>
    /** WallPaint.paintMaterial */
    const paintMaterial: MaterialId
    /** Roof.maxElevation */
    const maxElevation: real

    /** PlaceableObject.mesh: set by Init from the renderer. */
    var mesh: Option<Size>
    var positionDeltas: Pos
    var floorCount: int
    var blockOffsets: seq<Pos>
    /** WallObject.wallMesh and WallObject.originalWallMesh */
    var wallMesh: Option<MeshId>
    var originalWallMesh: Option<MeshId>

    /** A component as the editor creates it, before Init has run. */
    constructor(gameObject: ObjId, kind: Kind, renderer: Option<Size>, wallMesh: Option<MeshId>,
                paintMaterial: MaterialId, maxElevation: real)
      ensures this.gameObject == gameObject && this.kind == kind && this.renderer == renderer
      ensures this.wallMesh == wallMesh && this.paintMaterial == paintMaterial && this.maxElevation == maxElevation
      ensures mesh == None && positionDeltas == Pos(0, 0, 0) && floorCount == 0 && blockOffsets == []
      ensures originalWallMesh == None
    {
      this.gameObject := gameObject;
      this.kind := kind;
      this.renderer := renderer;
      this.paintMaterial := paintMaterial;
      this.maxElevation := maxElevation;
      mesh := None;
      positionDeltas := Pos(0, 0, 0);
      floorCount := 0;
      blockOffsets := [];
      this.wallMesh := wallMesh;
      originalWallMesh := None;
    }

    /**
     * The component of a GameObject.Instantiate copy: every serialized field
     * is copied, attached to the new scene object.
     */
    constructor Clone(original: PlaceableObject, gameObject: ObjId)
      ensures this.gameObject == gameObject
      ensures kind == original.kind && renderer == original.renderer
      ensures paintMaterial == original.paintMaterial && maxElevation == original.maxElevation
      ensures mesh == original.mesh && positionDeltas == original.positionDeltas
      ensures floorCount == original.floorCount && blockOffsets == original.blockOffsets
      ensures wallMesh == original.wallMesh && originalWallMesh == original.originalWallMesh
    {
      this.gameObject := gameObject;
      kind := original.kind;
      renderer := original.renderer;
      paintMaterial := original.paintMaterial;
      maxElevation := original.maxElevation;
      mesh := original.mesh;
      positionDeltas := original.positionDeltas;
      floorCount := original.floorCount;
      blockOffsets := original.blockOffsets;
      wallMesh := original.wallMesh;
      originalWallMesh := original.originalWallMesh;
    }

    /** The world-space extents of the mesh bounds at the object's current yaw. */
    function Bounds(yaw: Yaw): Size
      requires mesh.Some?
      reads this
    {
      WorldSize(mesh.value, yaw)
    }

    /**
     * PlaceableObject.Init: takes the renderer and, when there is one,
     * computes the deltas, then the floor count, then the offsets (which
     * therefore see the new floor count). Without a renderer nothing is
     * computed.
     */
    method Init(scene: Scene)
      requires gameObject in scene.objects
      modifies this
      ensures mesh == renderer
      ensures wallMesh == old(wallMesh) && originalWallMesh == old(originalWallMesh)
      ensures renderer.None? ==> positionDeltas == old(positionDeltas) && floorCount == old(floorCount)
                                   && blockOffsets == old(blockOffsets)
      ensures renderer.Some? ==>
        var size := WorldSize(renderer.value, scene.objects[gameObject].yaw);
        && positionDeltas == Deltas(size)
        && floorCount == FloorCount(size.y)
        && blockOffsets == BlockOffsets(size, floorCount)
    {
      mesh := renderer;
      if mesh.Some? {
        var size := Bounds(scene.objects[gameObject].yaw);
        positionDeltas := Deltas(size);
        floorCount := FloorCount(size.y);
        CalculateBlockOffsets(scene);
      }
    }

    /** PlaceableObject.CalculateBlockOffsets, for the bounds at the object's current yaw. */
    method CalculateBlockOffsets(scene: Scene)
      requires mesh.Some? && gameObject in scene.objects
      modifies this
      ensures mesh == old(mesh) && positionDeltas == old(positionDeltas) && floorCount == old(floorCount)
      ensures blockOffsets == BlockOffsets(Bounds(scene.objects[gameObject].yaw), floorCount)
      ensures wallMesh == old(wallMesh) && originalWallMesh == old(originalWallMesh)
    {
      blockOffsets := ComputeBlockOffsets(Bounds(scene.objects[gameObject].yaw), floorCount);
    }

    /** PlaceableObject.Rotate: a quarter turn, then the offsets for the new bounds. */
    method Rotate(scene: Scene)
      requires scene.Valid() && gameObject in scene.objects && mesh.Some?
      modifies this, scene
      ensures scene.Valid() && scene.nextId == old(scene.nextId)
      ensures mesh == old(mesh) && positionDeltas == old(positionDeltas) && floorCount == old(floorCount)
      ensures var yaw := NextYaw(old(scene.objects[gameObject].yaw));
        && scene.objects == old(scene.objects)[gameObject := old(scene.objects[gameObject]).(yaw := yaw)]
        && blockOffsets == BlockOffsets(Bounds(yaw), floorCount)
    {
      scene.SetYaw(gameObject, NextYaw(scene.objects[gameObject].yaw));
      CalculateBlockOffsets(scene);
    }

    /** Wall.Rotate: 0 becomes 90 and anything else 0, then the offsets for the new bounds. */
    method RotateWall(scene: Scene)
      requires scene.Valid() && gameObject in scene.objects && mesh.Some?
      modifies this, scene
      ensures scene.Valid() && scene.nextId == old(scene.nextId)
      ensures mesh == old(mesh) && positionDeltas == old(positionDeltas) && floorCount == old(floorCount)
      ensures var yaw := NextWallYaw(old(scene.objects[gameObject].yaw));
        && scene.objects == old(scene.objects)[gameObject := old(scene.objects[gameObject]).(yaw := yaw)]
        && blockOffsets == BlockOffsets(Bounds(yaw), floorCount)
    {
      scene.SetYaw(gameObject, NextWallYaw(scene.objects[gameObject].yaw));
      CalculateBlockOffsets(scene);
    }
  }
}
