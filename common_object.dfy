/**
 * CommonObject.cs: furniture, plants and everything else that occupies a
 * footprint of cells from a rounded-up base, one object per placement.
 */
module CommonObjects {
  import opened Wrappers
  import opened Grid
  import opened Occupancy
  import opened Scenes
  import opened BlockStore
  import opened Floors
  import opened Placeables
  import opened Footprint

  /** The footprint's base for a placement at p: x and z rounded up to whole units. */
  function Base(p: Pos): Pos {
    Pos(CeilWhole(p.x), p.y, CeilWhole(p.z))
  }

  /** An offset half a unit off the grid in x or z: its cell sits on a wall line and needs no tile. */
  predicate IsWallOffset(o: Pos) {
    Abs(o.x) == 1 || Abs(o.z) == 1
  }

  /**
   * The test CommonObject.IsValidLocation applies to one footprint entry:
   * in bounds, no object or wall recorded there, and above the ground floor
   * a real tile under every entry that is not on a wall line.
   */
  predicate OffsetOk(s: Store, activeFloor: int, base: Pos, o: Pos) {
    var p := base.Plus(o);
    && IsBlockPositionValid(p)
    && !(p in s && (s[p].blockObject.Some? || s[p].wall.Some?))
    && !(!IsWallOffset(o) && activeFloor != 0 && !HasTile(s, p))
  }

  /** CommonObject.IsValidLocation: every footprint entry passes, around the base of end. */
  predicate ValidObjectLocation(s: Store, activeFloor: int, offsets: seq<Pos>, end: Pos) {
    forall i | 0 <= i < |offsets| :: OffsetOk(s, activeFloor, Base(end), offsets[i])
  }

  /**
   * CommonObject.PutObject on the world: a copy at p under the active
   * floor, recorded by BlockManager.PutObject in every footprint cell.
   */
  function PutObjectSpec(w: World, original: ObjId, floor: ObjId, offsets: seq<Pos>, floorCount: int, p: Pos): World
    requires original in w.objects
  {
    var id := w.nextId;
    World(Occupancy.PutObject(w.cells, Base(p), offsets, FloorBlocksLimit(|offsets|, floorCount), id, |offsets|),
          w.objects[id := w.objects[original].(parent := Some(floor), position := p)],
          id + 1)
  }

  /** CommonObject.Place on the world: one copy at end when the location is valid, else nothing. */
  function PlaceSpec(w: World, original: ObjId, floor: ObjId, activeFloor: int, offsets: seq<Pos>, floorCount: int, end: Pos): World
    requires original in w.objects
  {
    if ValidObjectLocation(w.cells, activeFloor, offsets, end) then PutObjectSpec(w, original, floor, offsets, floorCount, end) else w
  }

  /**
   * CommonObject.Place when the active floor is outside the floor array:
   * over a valid location the copy is made and moved to end, then
   * AssignToCurrentFloor raises before any footprint cell is written;
   * elsewhere nothing happens.
   */
  function PlaceRaising(w: World, original: ObjId, activeFloor: int, offsets: seq<Pos>, end: Pos): (World, bool)
    requires original in w.objects
  {
    if ValidObjectLocation(w.cells, activeFloor, offsets, end) then (Stranded(w, original, end), true) else (w, false)
  }

  // ---------------------------------------------------------------------
  // Picking up

  /** One step of CommonObject.PickUp: an existing record loses its object, and its tile when asked. */
  function ClearObjectAt(s: Store, k: Pos, clearTile: bool): Store {
    if k in s then s[k := s[k].(blockObject := None, floorTile := if clearTile then NoTile else s[k].floorTile)] else s
  }

  /** CommonObject.PickUp's loop over the first n entries; entries from index limit on also lose their tile. */
  function ClearObject(s: Store, base: Pos, offsets: seq<Pos>, limit: int, n: nat): Store
    requires n <= |offsets|
  {
    if n == 0 then s
    else ClearObjectAt(ClearObject(s, base, offsets, limit, n - 1), base.Plus(offsets[n - 1]), n - 1 >= limit)
  }

  /** The base CommonObject.PickUp uses as written: its height is always the ground floor. */
  function PickUpBaseAsWritten(p: Pos): Pos {
    Pos(CeilWhole(p.x), 0, CeilWhole(p.z))
  }

  /**
   * What the pick-up loop does, cell by cell: no record is created, every
   * covered record loses its object, blocked records also lose their tile,
   * and the rest are untouched.
   */
  lemma {:induction false} ClearObjectEffect(s: Store, base: Pos, offsets: seq<Pos>, limit: int, n: nat, p: Pos)
    requires n <= |offsets|
    ensures var r := ClearObject(s, base, offsets, limit, n);
      && r.Keys == s.Keys
      && (p in Covered(base, offsets, n) && p in s ==>
            r[p] == Cell(s[p].wall, if p in Blocked(base, offsets, limit, n) then NoTile else s[p].floorTile, None))
      && (p !in Covered(base, offsets, n) && p in s ==> r[p] == s[p])
  {
    if n > 0 {
      ClearObjectEffect(s, base, offsets, limit, n - 1, p);
      var k := base.Plus(offsets[n - 1]);
      assert Covered(base, offsets, n) == Covered(base, offsets, n - 1) + {k};
      if n - 1 >= limit {
        assert Blocked(base, offsets, limit, n) == Blocked(base, offsets, limit, n - 1) + {k};
      } else {
        assert Blocked(base, offsets, limit, n) == Blocked(base, offsets, limit, n - 1);
      }
    }
  }

  /**
   * Putting an object down and picking it up from the same base gives every
   * position its old contents back, provided the footprint held no object
   * and the blocked cells no tile (an absent record reads as an empty one).
   */
  lemma PutThenClearRestores(s: Store, base: Pos, offsets: seq<Pos>, limit: int, item: ObjId, q: Pos)
    requires forall i | 0 <= i < |offsets| :: CellAt(s, base.Plus(offsets[i])).blockObject.None?
    requires forall i | 0 <= i < |offsets| && i >= limit :: CellAt(s, base.Plus(offsets[i])).floorTile == NoTile
    ensures CellAt(ClearObject(Occupancy.PutObject(s, base, offsets, limit, item, |offsets|), base, offsets, limit, |offsets|), q)
         == CellAt(s, q)
  {
    var n := |offsets|;
    var r := Occupancy.PutObject(s, base, offsets, limit, item, n);
    PutObjectEffect(s, base, offsets, limit, item, n, q);
    ClearObjectEffect(r, base, offsets, limit, n, q);
    if q in Covered(base, offsets, n) {
      var i :| 0 <= i < n && base.Plus(offsets[i]) == q;
      assert CellAt(s, q).blockObject.None?;
      if q in Blocked(base, offsets, limit, n) {
        var j :| 0 <= j < n && j >= limit && base.Plus(offsets[j]) == q;
        assert CellAt(s, q).floorTile == NoTile;
      }
    }
  }

  /**
   * A valid location has no object in any footprint cell, so when the
   * cells past the limit hold no tile either, placing there and picking up
   * again restores the store.
   */
  lemma PlaceThenPickUpRestores(w: World, original: ObjId, floor: ObjId, activeFloor: int, offsets: seq<Pos>, floorCount: int,
                                end: Pos, q: Pos)
    requires original in w.objects
    requires ValidObjectLocation(w.cells, activeFloor, offsets, end)
    requires forall i | 0 <= i < |offsets| && i >= FloorBlocksLimit(|offsets|, floorCount) ::
      CellAt(w.cells, Base(end).Plus(offsets[i])).floorTile == NoTile
    ensures var r := PlaceSpec(w, original, floor, activeFloor, offsets, floorCount, end);
      CellAt(ClearObject(r.cells, Base(r.objects[w.nextId].position), offsets, FloorBlocksLimit(|offsets|, floorCount), |offsets|), q)
        == CellAt(w.cells, q)
  {
    forall i | 0 <= i < |offsets|
      ensures CellAt(w.cells, Base(end).Plus(offsets[i])).blockObject.None?
    {
      assert OffsetOk(w.cells, activeFloor, Base(end), offsets[i]);
    }
    PutThenClearRestores(w.cells, Base(end), offsets, FloorBlocksLimit(|offsets|, floorCount), w.nextId, q);
  }

  /** After an object is placed, the same placement is refused: its first cell now holds it. */
  lemma SameSpotRefusedAfterPlace(w: World, original: ObjId, floor: ObjId, activeFloor: int, offsets: seq<Pos>, floorCount: int, end: Pos)
    requires original in w.objects && |offsets| > 0
    requires ValidObjectLocation(w.cells, activeFloor, offsets, end)
    ensures var r := PlaceSpec(w, original, floor, activeFloor, offsets, floorCount, end);
      !ValidObjectLocation(r.cells, activeFloor, offsets, end)
  {
    var r := PlaceSpec(w, original, floor, activeFloor, offsets, floorCount, end);
    var p := Base(end).Plus(offsets[0]);
    PutObjectEffect(w.cells, Base(end), offsets, FloorBlocksLimit(|offsets|, floorCount), w.nextId, |offsets|, p);
    assert p in Covered(Base(end), offsets, |offsets|);
    assert !OffsetOk(r.cells, activeFloor, Base(end), offsets[0]);
  }

  /**
   * As written, picking up an object placed above the ground floor clears
   * ground-floor cells instead: every cell of a one-floor footprint put at
   * floor y > 0 still records the object afterwards.
   */
  lemma UpperFloorPickUpLeavesObject(s: Store, p: Pos, offsets: seq<Pos>, floorCount: int, item: ObjId, i: nat)
    requires p.y != 0 && i < |offsets|
    requires forall j | 0 <= j < |offsets| :: offsets[j].y == 0
    ensures var limit := FloorBlocksLimit(|offsets|, floorCount);
      var r := ClearObject(Occupancy.PutObject(s, Base(p), offsets, limit, item, |offsets|),
                           PickUpBaseAsWritten(p), offsets, limit, |offsets|);
      var q := Base(p).Plus(offsets[i]);
      q in r && r[q].blockObject == Some(item)
  {
    var limit := FloorBlocksLimit(|offsets|, floorCount);
    var q := Base(p).Plus(offsets[i]);
    var put := Occupancy.PutObject(s, Base(p), offsets, limit, item, |offsets|);
    PutObjectEffect(s, Base(p), offsets, limit, item, |offsets|, q);
    assert q in Covered(Base(p), offsets, |offsets|);
    ClearObjectEffect(put, PickUpBaseAsWritten(p), offsets, limit, |offsets|, q);
  }

  // ---------------------------------------------------------------------
  // Methods

  /** CommonObject.IsValidLocation: the entries are checked in order, stopping at the first failure. */
  method IsValidLocation(obj: PlaceableObject, bm: BlockManager, floors: BuildingFloorManager, start: Pos, end: Pos)
    returns (isValid: bool)
    requires bm.Valid()
    ensures isValid == ValidObjectLocation(bm.Cells(), floors.activeFloor, obj.blockOffsets, end)
  {
    var base := Base(end);
    var i := 0;
    while i < |obj.blockOffsets|
      invariant 0 <= i <= |obj.blockOffsets|
      invariant forall j | 0 <= j < i :: OffsetOk(bm.Cells(), floors.activeFloor, base, obj.blockOffsets[j])
    {
      var offset := obj.blockOffsets[i];
      var position := base.Plus(offset);
      var block := bm.Lookup(position);
      var isWallOffset := Abs(offset.x) == 1 || Abs(offset.z) == 1;
      var noBase := !isWallOffset && (floors.activeFloor != 0 && !bm.HasTile(position));
      if !IsBlockPositionValid(position) || (block != null && (block.blockObject.Some? || block.wall.Some?)) || noBase {
        return false;
      }
      i := i + 1;
    }
    return true;
  }

  /**
   * CommonObject.PutObject: a copy at p under the active floor, recorded in
   * its footprint cells. When the active floor is outside the floor array
   * the copy is made and moved, then AssignToCurrentFloor raises.
   */
  method PutObject(obj: PlaceableObject, bm: BlockManager, scene: Scene, floors: BuildingFloorManager, p: Pos)
    returns (placed: PlaceableObject, raised: bool)
    requires bm.Valid() && scene.Valid() && obj.gameObject in scene.objects
    modifies bm, bm.Repr, scene
    ensures bm.Valid() && scene.Valid()
    ensures raised <==> floors.Container().None?
    ensures !raised ==> State(bm, scene) == PutObjectSpec(old(State(bm, scene)), obj.gameObject, floors.Container().value,
                                                          obj.blockOffsets, obj.floorCount, p)
    ensures raised ==> State(bm, scene) == Stranded(old(State(bm, scene)), obj.gameObject, p)
    ensures placed.gameObject == old(scene.nextId) && placed.blockOffsets == obj.blockOffsets && placed.floorCount == obj.floorCount
    ensures fresh(bm.Repr - old(bm.Repr))
  {
    var ok;
    placed, ok := MakeCopy(obj, scene, floors, p);
    raised := !ok;
    if raised {
      return;
    }
    var _ := bm.PutObject(placed.gameObject, placed.blockOffsets, placed.floorCount, p);
  }

  /**
   * CommonObject.Place: one copy at end when the location is valid. When
   * the active floor is outside the floor array, that copy raises.
   */
  method Place(obj: PlaceableObject, bm: BlockManager, scene: Scene, floors: BuildingFloorManager, start: Pos, end: Pos)
    returns (placed: seq<PlaceableObject>, raised: bool)
    requires bm.Valid() && scene.Valid() && obj.gameObject in scene.objects
    modifies bm, bm.Repr, scene
    ensures bm.Valid() && scene.Valid()
    ensures floors.Container().Some? ==> !raised
    ensures floors.Container().Some? ==>
      State(bm, scene) == PlaceSpec(old(State(bm, scene)), obj.gameObject, floors.Container().value,
                                    floors.activeFloor, obj.blockOffsets, obj.floorCount, end)
    ensures floors.Container().None? ==>
      (State(bm, scene), raised) == PlaceRaising(old(State(bm, scene)), obj.gameObject, floors.activeFloor, obj.blockOffsets, end)
    ensures !raised ==> |placed| == if ValidObjectLocation(old(bm.Cells()), floors.activeFloor, obj.blockOffsets, end) then 1 else 0
    ensures |placed| == 1 ==> placed[0].gameObject == old(scene.nextId)
  {
    placed, raised := [], false;
    var valid := IsValidLocation(obj, bm, floors, start, end);
    if valid {
      var t;
      t, raised := PutObject(obj, bm, scene, floors, end);
      placed := [t];
    }
  }

  /** One iteration of the pick-up loop: an existing record at k loses its object, and its tile when asked. */
  method ClearAt(bm: BlockManager, k: Pos, clearTile: bool)
    requires bm.Valid()
    modifies bm, bm.Repr
    ensures bm.Valid() && bm.blocks == old(bm.blocks) && bm.Repr == old(bm.Repr)
    ensures bm.Cells() == ClearObjectAt(old(bm.Cells()), k, clearTile)
  {
    var block := bm.Lookup(k);
    if block != null {
      block.blockObject := None;
      if clearTile {
        block.floorTile := NoTile;
      }
      bm.cells := ClearObjectAt(bm.cells, k, clearTile);
      forall q | q in bm.blocks
        ensures bm.blocks[q].View() == bm.cells[q]
      {
        if q != k {
          assert bm.blocks[q] != block;
        }
      }
    }
  }

  /** The pick-up loop of CommonObject.PickUp, from a given base. */
  method ClearFootprint(bm: BlockManager, offsets: seq<Pos>, floorCount: int, base: Pos)
    requires bm.Valid()
    modifies bm, bm.Repr
    ensures bm.Valid() && bm.Repr == old(bm.Repr)
    ensures bm.Cells() == ClearObject(old(bm.Cells()), base, offsets, FloorBlocksLimit(|offsets|, floorCount), |offsets|)
  {
    var limit := FloorBlocksLimit(|offsets|, floorCount);
    for i := 0 to |offsets|
      invariant bm.Valid() && bm.Repr == old(bm.Repr)
      invariant bm.Cells() == ClearObject(old(bm.Cells()), base, offsets, limit, i)
    {
      ClearAt(bm, base.Plus(offsets[i]), i >= limit);
    }
  }

  /**
   * CommonObject.PickUp from the base it is given: the footprint is
   * cleared, the offsets are recomputed for the current bounds, and the
   * object goes to the temp holder.
   */
  method PickUpFrom(obj: PlaceableObject, bm: BlockManager, scene: Scene, floors: BuildingFloorManager, base: Pos)
    requires bm.Valid() && scene.Valid() && obj.gameObject in scene.objects && obj.mesh.Some?
    modifies bm, bm.Repr, scene, obj
    ensures bm.Valid() && scene.Valid()
    ensures bm.Cells() == ClearObject(old(bm.Cells()), base, old(obj.blockOffsets),
                                      FloorBlocksLimit(|old(obj.blockOffsets)|, obj.floorCount), |old(obj.blockOffsets)|)
    ensures scene.objects == old(scene.objects)[obj.gameObject := old(scene.objects[obj.gameObject]).(parent := Some(floors.tempFloor))]
    ensures obj.mesh == old(obj.mesh) && obj.floorCount == old(obj.floorCount)
    ensures obj.blockOffsets == BlockOffsets(obj.Bounds(scene.objects[obj.gameObject].yaw), obj.floorCount)
  {
    ClearFootprint(bm, obj.blockOffsets, obj.floorCount, base);
    obj.CalculateBlockOffsets(scene);
    floors.AssignToTempFloor(scene, obj.gameObject);
  }

  /**
   * CommonObject.PickUp as written: the base keeps x and z of the object's
   * position but takes the ground floor's height.
   */
  method PickUpAsWritten(obj: PlaceableObject, bm: BlockManager, scene: Scene, floors: BuildingFloorManager)
    requires bm.Valid() && scene.Valid() && obj.gameObject in scene.objects && obj.mesh.Some?
    modifies bm, bm.Repr, scene, obj
    ensures bm.Valid() && scene.Valid()
    ensures bm.Cells() == ClearObject(old(bm.Cells()), PickUpBaseAsWritten(old(scene.objects[obj.gameObject].position)),
      old(obj.blockOffsets), FloorBlocksLimit(|old(obj.blockOffsets)|, obj.floorCount), |old(obj.blockOffsets)|)
    ensures scene.objects == old(scene.objects)[obj.gameObject := old(scene.objects[obj.gameObject]).(parent := Some(floors.tempFloor))]
  {
    PickUpFrom(obj, bm, scene, floors, PickUpBaseAsWritten(scene.objects[obj.gameObject].position));
  }

  /**
   * CommonObject.PickUp, corrected to clear the footprint around the same
   * base PutObject filled: the object's own floor.
   */
  method PickUp(obj: PlaceableObject, bm: BlockManager, scene: Scene, floors: BuildingFloorManager)
    requires bm.Valid() && scene.Valid() && obj.gameObject in scene.objects && obj.mesh.Some?
    modifies bm, bm.Repr, scene, obj
    ensures bm.Valid() && scene.Valid()
    ensures bm.Cells() == ClearObject(old(bm.Cells()), Base(old(scene.objects[obj.gameObject].position)),
      old(obj.blockOffsets), FloorBlocksLimit(|old(obj.blockOffsets)|, obj.floorCount), |old(obj.blockOffsets)|)
    ensures scene.objects == old(scene.objects)[obj.gameObject := old(scene.objects[obj.gameObject]).(parent := Some(floors.tempFloor))]
  {
    PickUpFrom(obj, bm, scene, floors, Base(scene.objects[obj.gameObject].position));
  }
}
