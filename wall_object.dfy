/**
 * WallObject.cs: doors and windows hang on a wall that has nothing on it
 * yet, become that wall's child, and may swap the wall's mesh for one with
 * an opening, which picking them up puts back.
 */
module WallObjects {
  import opened Wrappers
  import opened Grid
  import opened Occupancy
  import opened Scenes
  import opened BlockStore
  import opened Floors
  import opened Placeables

  /** The wall recorded at k, if any, is an object of the scene (the source reads its mesh). */
  predicate WallLive(s: Store, objs: Objects, k: Pos) {
    k in s && s[k].wall.Some? ==> s[k].wall.value in objs
  }

  /**
   * WallObject.IsValidLocation: the wall position of end, for the object's
   * yaw, holds a wall with no children. start plays no part.
   */
  predicate ValidSpot(s: Store, objs: Objects, yaw: Yaw, end: Pos) {
    var k := WallPosition(end, yaw);
    k in s && s[k].wall.Some? && Children(objs, s[k].wall.value) == {}
  }

  /**
   * WallObject.PutWallObject on the world: a copy at p, made a child of
   * the wall at p's wall position; when the component carries a wall mesh
   * the wall shows it from then on. The store is not touched.
   */
  function PutWallObjectSpec(w: World, original: ObjId, wallMesh: Option<MeshId>, p: Pos): World
    requires original in w.objects
    requires var k := WallPosition(p, w.objects[original].yaw); k in w.cells && w.cells[k].wall.Some? && w.cells[k].wall.value in w.objects
  {
    var wall := w.cells[WallPosition(p, w.objects[original].yaw)].wall.value;
    var id := w.nextId;
    var objs := w.objects[id := w.objects[original].(parent := Some(wall), position := p)];
    World(w.cells, if wallMesh.Some? then objs[wall := objs[wall].(mesh := wallMesh)] else objs, id + 1)
  }

  /** WallObject.Place on the world: one copy at end when the spot is valid, else nothing. */
  function PlaceSpec(w: World, original: ObjId, wallMesh: Option<MeshId>, end: Pos): World
    requires original in w.objects && WallLive(w.cells, w.objects, WallPosition(end, w.objects[original].yaw))
  {
    if ValidSpot(w.cells, w.objects, w.objects[original].yaw, end) then PutWallObjectSpec(w, original, wallMesh, end) else w
  }

  /**
   * WallObject.Place when the active floor is outside the floor array: on a
   * valid spot the copy is made and moved to end, then AssignToCurrentFloor
   * raises before the copy is hung on the wall; elsewhere nothing happens.
   */
  function PlaceRaising(w: World, original: ObjId, end: Pos): (World, bool)
    requires original in w.objects
  {
    if ValidSpot(w.cells, w.objects, w.objects[original].yaw, end) then (Stranded(w, original, end), true) else (w, false)
  }

  /**
   * WallObject.PickUp on the scene: every child of the wall at the object's
   * own wall position is detached, the wall gets its saved mesh back when
   * one was saved, and the object goes to the temp holder. With no wall
   * recorded there the source dereferences null: None.
   */
  function PickUpSpec(objs: Objects, s: Store, id: ObjId, originalWallMesh: Option<MeshId>, tempFloor: ObjId): Option<Objects>
    requires id in objs && WallLive(s, objs, WallPosition(objs[id].position, objs[id].yaw))
  {
    var k := WallPosition(objs[id].position, objs[id].yaw);
    if k !in s || s[k].wall.None? then None
    else
      var wall := s[k].wall.value;
      var d := Detached(objs, wall);
      var m := if originalWallMesh.Some? then d[wall := d[wall].(mesh := originalWallMesh)] else d;
      Some(m[id := m[id].(parent := Some(tempFloor))])
  }

  // ---------------------------------------------------------------------
  // Properties

  /**
   * A placed wall object is a child of the wall it was put on, the wall
   * shows the object's wall mesh when it has one, and the store is
   * unchanged.
   */
  lemma PlacedObjectHangsOnWall(w: World, original: ObjId, wallMesh: Option<MeshId>, p: Pos)
    requires original in w.objects && original < w.nextId
    requires var k := WallPosition(p, w.objects[original].yaw); k in w.cells && w.cells[k].wall.Some? && w.cells[k].wall.value in w.objects
    requires forall i | i in w.objects :: i < w.nextId
    ensures var wall := w.cells[WallPosition(p, w.objects[original].yaw)].wall.value;
      var r := PutWallObjectSpec(w, original, wallMesh, p);
      && r.cells == w.cells
      && w.nextId in Children(r.objects, wall)
      && (wallMesh.Some? ==> r.objects[wall].mesh == wallMesh)
      && (wallMesh.None? ==> r.objects[wall] == w.objects[wall])
  {
    var wall := w.cells[WallPosition(p, w.objects[original].yaw)].wall.value;
    assert wall < w.nextId;
  }

  /** Once a wall object hangs on a wall, a second one for the same spot is refused. */
  lemma SecondObjectRejected(w: World, original: ObjId, wallMesh: Option<MeshId>, p: Pos)
    requires original in w.objects && original < w.nextId
    requires forall i | i in w.objects :: i < w.nextId
    requires WallLive(w.cells, w.objects, WallPosition(p, w.objects[original].yaw))
    requires ValidSpot(w.cells, w.objects, w.objects[original].yaw, p)
    ensures var r := PlaceSpec(w, original, wallMesh, p);
      r != w && !ValidSpot(r.cells, r.objects, r.objects[original].yaw, p)
  {
    PlacedObjectHangsOnWall(w, original, wallMesh, p);
  }

  /**
   * Picking a wall object up leaves its wall with no children, so the spot
   * accepts a wall object again.
   */
  lemma PickUpFreesSpot(objs: Objects, s: Store, id: ObjId, originalWallMesh: Option<MeshId>, tempFloor: ObjId, yaw: Yaw, p: Pos)
    requires id in objs && WallLive(s, objs, WallPosition(objs[id].position, objs[id].yaw))
    requires PickUpSpec(objs, s, id, originalWallMesh, tempFloor).Some?
    requires WallPosition(p, yaw) == WallPosition(objs[id].position, objs[id].yaw)
    requires tempFloor != s[WallPosition(p, yaw)].wall.value
    ensures ValidSpot(s, PickUpSpec(objs, s, id, originalWallMesh, tempFloor).value, yaw, p)
  {
    var wall := s[WallPosition(p, yaw)].wall.value;
    var d := Detached(objs, wall);
    var m := PickUpSpec(objs, s, id, originalWallMesh, tempFloor).value;
    forall c | c in m
      ensures m[c].parent != Some(wall)
    {
      assert c in d && c !in Children(d, wall);
    }
  }

  /**
   * Hanging an object with a wall mesh on a wall that had a mesh, then
   * picking it up with the mesh it saved, gives the wall its mesh back and
   * leaves it with no children.
   */
  lemma PlaceThenPickUpRestoresWall(w: World, original: ObjId, wallMesh: Option<MeshId>, p: Pos, tempFloor: ObjId)
    requires original in w.objects && original < w.nextId
    requires forall i | i in w.objects :: i < w.nextId
    requires var k := WallPosition(p, w.objects[original].yaw); k in w.cells && w.cells[k].wall.Some? && w.cells[k].wall.value in w.objects
    requires wallMesh.Some?
    requires tempFloor != w.cells[WallPosition(p, w.objects[original].yaw)].wall.value
    ensures var k := WallPosition(p, w.objects[original].yaw);
      var wall := w.cells[k].wall.value;
      var r := PutWallObjectSpec(w, original, wallMesh, p);
      var saved := w.objects[wall].mesh;
      && w.nextId in r.objects
      && WallLive(r.cells, r.objects, WallPosition(r.objects[w.nextId].position, r.objects[w.nextId].yaw))
      && PickUpSpec(r.objects, r.cells, w.nextId, saved, tempFloor).Some?
      && var m := PickUpSpec(r.objects, r.cells, w.nextId, saved, tempFloor).value;
         (saved.Some? ==> m[wall].mesh == saved) && Children(m, wall) == {}
  {
    var k := WallPosition(p, w.objects[original].yaw);
    var wall := w.cells[k].wall.value;
    assert wall < w.nextId;
    var r := PutWallObjectSpec(w, original, wallMesh, p);
    assert r.objects[w.nextId].position == p && r.objects[w.nextId].yaw == w.objects[original].yaw;
    var m := PickUpSpec(r.objects, r.cells, w.nextId, w.objects[wall].mesh, tempFloor).value;
    forall c | c in m
      ensures m[c].parent != Some(wall)
    {
      var d := Detached(r.objects, wall);
      assert c in d && c !in Children(d, wall);
    }
  }

  // ---------------------------------------------------------------------
  // Methods

  /** WallObject.IsValidLocation */
  method IsValidLocation(obj: PlaceableObject, bm: BlockManager, scene: Scene, start: Pos, end: Pos) returns (isValid: bool)
    requires bm.Valid() && obj.gameObject in scene.objects
    ensures isValid == ValidSpot(bm.Cells(), scene.objects, scene.objects[obj.gameObject].yaw, end)
  {
    var block := bm.Lookup(WallPosition(end, scene.objects[obj.gameObject].yaw));
    isValid := block != null && block.wall.Some? && Children(scene.objects, block.wall.value) == {};
  }

  /**
   * WallObject.PutWallObject: the copy is placed, parented under the wall,
   * and, when the component carries a wall mesh, saves the wall's mesh and
   * puts its own on the wall.
   */
  method PutWallObject(obj: PlaceableObject, bm: BlockManager, scene: Scene, floors: BuildingFloorManager, p: Pos)
    returns (placed: PlaceableObject, raised: bool)
    requires bm.Valid() && scene.Valid() && obj.gameObject in scene.objects
    requires var k := WallPosition(p, scene.objects[obj.gameObject].yaw);
      k in bm.Cells() && bm.Cells()[k].wall.Some? && bm.Cells()[k].wall.value in scene.objects
    modifies scene
    ensures scene.Valid()
    ensures raised <==> floors.Container().None?
    ensures !raised ==> State(bm, scene) == PutWallObjectSpec(old(State(bm, scene)), obj.gameObject, obj.wallMesh, p)
    ensures raised ==> State(bm, scene) == Stranded(old(State(bm, scene)), obj.gameObject, p)
    ensures placed.gameObject == old(scene.nextId) && placed.wallMesh == obj.wallMesh
    ensures !raised ==>
      placed.originalWallMesh ==
        if obj.wallMesh.Some? then old(scene.objects[bm.Cells()[WallPosition(p, scene.objects[obj.gameObject].yaw)].wall.value].mesh)
        else obj.originalWallMesh
  {
    var yaw := scene.objects[obj.gameObject].yaw;
    ghost var w := State(bm, scene);
    ghost var wall := w.cells[WallPosition(p, yaw)].wall.value;
    var ok;
    placed, ok := MakeCopy(obj, scene, floors, p);
    raised := !ok;
    if raised {
      return;
    }
    var block := bm.PutWallObject(scene, yaw, placed.gameObject, p);
    assert scene.objects == w.objects[w.nextId := w.objects[obj.gameObject].(parent := Some(wall), position := p)];
    if placed.wallMesh.Some? {
      placed.originalWallMesh := scene.objects[block.wall.value].mesh;
      scene.SetMesh(block.wall.value, placed.wallMesh);
    }
  }

  /**
   * WallObject.Place: one copy at end when the location is valid. When the
   * active floor is outside the floor array, that copy raises.
   */
  method Place(obj: PlaceableObject, bm: BlockManager, scene: Scene, floors: BuildingFloorManager, start: Pos, end: Pos)
    returns (placed: seq<PlaceableObject>, raised: bool)
    requires bm.Valid() && scene.Valid() && obj.gameObject in scene.objects
    requires WallLive(bm.Cells(), scene.objects, WallPosition(end, scene.objects[obj.gameObject].yaw))
    modifies scene
    ensures scene.Valid()
    ensures floors.Container().Some? ==> !raised && State(bm, scene) == PlaceSpec(old(State(bm, scene)), obj.gameObject, obj.wallMesh, end)
    ensures floors.Container().None? ==> (State(bm, scene), raised) == PlaceRaising(old(State(bm, scene)), obj.gameObject, end)
    ensures !raised ==> |placed| == if ValidSpot(old(bm.Cells()), old(scene.objects), old(scene.objects[obj.gameObject].yaw), end) then 1 else 0
    ensures |placed| == 1 ==> placed[0].gameObject == old(scene.nextId)
  {
    placed, raised := [], false;
    var valid := IsValidLocation(obj, bm, scene, start, end);
    if valid {
      var t;
      t, raised := PutWallObject(obj, bm, scene, floors, end);
      placed := [t];
    }
  }

  /**
   * WallObject.PickUp: ok is false where the source dereferences a missing
   * record or wall, and then nothing changes.
   */
  method PickUp(obj: PlaceableObject, bm: BlockManager, scene: Scene, floors: BuildingFloorManager) returns (ok: bool)
    requires bm.Valid() && scene.Valid() && obj.gameObject in scene.objects
    requires WallLive(bm.Cells(), scene.objects,
      WallPosition(scene.objects[obj.gameObject].position, scene.objects[obj.gameObject].yaw))
    modifies scene
    ensures scene.Valid()
    ensures var r := PickUpSpec(old(scene.objects), bm.Cells(), obj.gameObject, obj.originalWallMesh, floors.tempFloor);
      ok == r.Some? && scene.objects == (if r.Some? then r.value else old(scene.objects))
  {
    var o := scene.objects[obj.gameObject];
    var block := bm.Lookup(WallPosition(o.position, o.yaw));
    if block == null || block.wall.None? {
      return false;
    }
    var wall := block.wall.value;
    scene.DetachChildren(wall);
    if obj.originalWallMesh.Some? {
      scene.SetMesh(wall, obj.originalWallMesh);
    }
    floors.AssignToTempFloor(scene, obj.gameObject);
    ok := true;
  }
}
