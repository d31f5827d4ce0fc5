/**
 * BuilderController.cs, the parts that decide what the editor does: the
 * floor up/down guards, Reset, the layer mask of ToggleVisibility, the
 * snapping of the mouse position to a block position, and the validate-then-place
 * step run when the right button is released. Input devices, raycasting,
 * sound and the selection-area rendering are parameters or left out.
 */
module BuilderControls {
  import opened Wrappers
  import opened Grid
  import opened Occupancy
  import opened Scenes
  import opened BlockStore
  import opened Floors
  import opened Placeables
  import FloorTiles
  import Walls
  import WallObjects
  import CommonObjects
  import WallPaints

  // ---------------------------------------------------------------------
  // Floors: the guards of GoUp and GoDown

  /** The part of BuildingFloorManager the guards read: the active index and how many floors exist. */
  datatype FloorView = FloorView(active: int, count: int)

  /** Where a floor step leaves the index, and whether it raised an IndexOutOfRangeException. */
  datatype FloorStep = FloorStep(after: FloorView, raised: bool)

  /** The index is one of the floors that exist. */
  predicate InRange(v: FloorView) {
    0 <= v.active < v.count
  }

  /**
   * BuilderController.GoUp as written: guarded by the configured
   * NUMBER_OF_FLOORS; BuildingFloorManager.GoUp then steps up before
   * indexing the floor array, so it raises after the step when that floor
   * does not exist.
   */
  function GoUpAsWrittenStep(v: FloorView): FloorStep {
    if v.active < NUMBER_OF_FLOORS - 1 then FloorStep(v.(active := v.active + 1), !(0 <= v.active + 1 < v.count))
    else FloorStep(v, false)
  }

  /** BuilderController.GoUp guarded by the number of floors that exist. */
  function GoUpStep(v: FloorView): FloorStep {
    if v.active < v.count - 1 then FloorStep(v.(active := v.active + 1), !(0 <= v.active + 1 < v.count))
    else FloorStep(v, false)
  }

  /**
   * BuilderController.GoDown: guarded by activeFloor > 0;
   * BuildingFloorManager.GoDown indexes the array before stepping down, so
   * an index outside it raises with nothing changed.
   */
  function GoDownStep(v: FloorView): FloorStep {
    if v.active > 0 then
      if v.active < v.count then FloorStep(v.(active := v.active - 1), false) else FloorStep(v, true)
    else FloorStep(v, false)
  }

  /**
   * With fewer floors than NUMBER_OF_FLOORS (a saved house reloaded through
   * Reset(floors.Count)), going up from the top floor passes the guard and
   * raises, and from there every GoDown raises without moving: the editor
   * is stranded above the last floor.
   */
  lemma GoUpAsWrittenStrands(count: int)
    requires 0 < count < NUMBER_OF_FLOORS
    ensures var up := GoUpAsWrittenStep(FloorView(count - 1, count));
      && up.raised && up.after == FloorView(count, count) && !InRange(up.after)
      && GoDownStep(up.after) == FloorStep(up.after, true)
  {
  }

  /** Guarded by the floors that exist, going up or down never raises and never leaves the floors. */
  lemma FloorStepsStayInRange(v: FloorView)
    requires InRange(v)
    ensures !GoUpStep(v).raised && InRange(GoUpStep(v).after)
    ensures !GoDownStep(v).raised && InRange(GoDownStep(v).after)
    ensures GoUpStep(v).after.active == if v.active < v.count - 1 then v.active + 1 else v.active
    ensures GoDownStep(v).after.active == if v.active > 0 then v.active - 1 else v.active
  {
  }

  /** With the configured number of floors the corrected guard is the source's guard. */
  lemma GoUpAgreesOnConfiguredFloors(v: FloorView)
    requires v.count == NUMBER_OF_FLOORS
    ensures GoUpStep(v) == GoUpAsWrittenStep(v)
  {
  }

  /** Going up and then down returns to the same floor, below the top one. */
  lemma UpThenDownReturns(v: FloorView)
    requires InRange(v) && v.active < v.count - 1
    ensures GoDownStep(GoUpStep(v).after).after == v
  {
  }

  // ---------------------------------------------------------------------
  // ToggleVisibility

  /**
   * The camera's culling mask: the default mask with the roof layer's bits
   * cleared when roofs are hidden and the walls layer's bits cleared when
   * walls are hidden.
   */
  function VisibilityMask(defaultMask: bv32, roofMask: bv32, wallsMask: bv32, isRoofVisible: bool, areWallsVisible: bool): bv32 {
    var mask := if !isRoofVisible then defaultMask & !roofMask else defaultMask;
    if !areWallsVisible then mask & !wallsMask else mask
  }

  /** The mask never shows a layer the default mask hides. */
  lemma VisibilityMaskWithinDefault(defaultMask: bv32, roofMask: bv32, wallsMask: bv32, isRoofVisible: bool, areWallsVisible: bool)
    ensures VisibilityMask(defaultMask, roofMask, wallsMask, isRoofVisible, areWallsVisible) & !defaultMask == 0
  {
    if !isRoofVisible && !areWallsVisible {
      MaskedIsWithin(defaultMask, !roofMask & !wallsMask);
    } else if !isRoofVisible {
      MaskedIsWithin(defaultMask, !roofMask);
    } else if !areWallsVisible {
      MaskedIsWithin(defaultMask, !wallsMask);
    }
  }

  lemma MaskedIsWithin(a: bv32, b: bv32)
    ensures (a & b) & !a == 0
  {
  }

  /** A hidden kind's layer bits are all clear. */
  lemma VisibilityMaskClearsHidden(defaultMask: bv32, roofMask: bv32, wallsMask: bv32, isRoofVisible: bool, areWallsVisible: bool)
    ensures var r := VisibilityMask(defaultMask, roofMask, wallsMask, isRoofVisible, areWallsVisible);
      && (!isRoofVisible ==> r & roofMask == 0)
      && (!areWallsVisible ==> r & wallsMask == 0)
  {
  }

  /**
   * Bits of neither layer are the default's, and so are a visible kind's
   * bits outside the other kind's layer; with both visible the mask is the
   * default.
   */
  lemma VisibilityMaskKeepsVisible(defaultMask: bv32, roofMask: bv32, wallsMask: bv32, isRoofVisible: bool, areWallsVisible: bool)
    ensures var r := VisibilityMask(defaultMask, roofMask, wallsMask, isRoofVisible, areWallsVisible);
      && r & !roofMask & !wallsMask == defaultMask & !roofMask & !wallsMask
      && (isRoofVisible ==> r & roofMask & !wallsMask == defaultMask & roofMask & !wallsMask)
      && (areWallsVisible ==> r & wallsMask & !roofMask == defaultMask & wallsMask & !roofMask)
    ensures VisibilityMask(defaultMask, roofMask, wallsMask, true, true) == defaultMask
  {
  }

  // ---------------------------------------------------------------------
  // Snapping

  /** Where the mouse ray hit the floor collider, in world units. */
  datatype Hit = Hit(x: real, z: real)

  /** Input.mousePosition, in screen units. */
  datatype Screen = Screen(x: real, y: real)

  /**
   * The snapping of UpdateBlockPosition, in half units: the whole world
   * unit the hit lies in plus the object's deltas, the deltas swapped when
   * the object is turned by 90 or 270 degrees; y is the floor the
   * collider is on.
   */
  function Snap(hit: Hit, deltas: Pos, yaw: Yaw, level: int): Pos {
    var cx := UNIT * hit.x.Floor;
    var cz := UNIT * hit.z.Floor;
    if yaw == 0 || yaw == 180 then Pos(cx + deltas.x, level, cz + deltas.z)
    else Pos(cx + deltas.z, level, cz + deltas.x)
  }

  /**
   * Without the deltas the snapped position is the corner of the whole
   * unit the hit lies in: whole, at or below the hit, and less than one
   * unit below it.
   */
  lemma SnapContainsHit(hit: Hit, deltas: Pos, yaw: Yaw, level: int)
    requires yaw == 0 || yaw == 180
    ensures var p := Snap(hit, deltas, yaw, level);
      && IsWhole(p.x - deltas.x) && IsWhole(p.z - deltas.z) && p.y == level
      && (p.x - deltas.x) as real <= UNIT as real * hit.x < (p.x - deltas.x + UNIT) as real
      && (p.z - deltas.z) as real <= UNIT as real * hit.z < (p.z - deltas.z + UNIT) as real
  {
  }

  /** Moving the hit by one whole unit along x moves the block position by one unit along x. */
  lemma SnapShiftsByWholeUnits(hit: Hit, deltas: Pos, yaw: Yaw, level: int)
    ensures Snap(Hit(hit.x + 1.0, hit.z), deltas, yaw, level) == Snap(hit, deltas, yaw, level).Plus(Pos(UNIT, 0, 0))
    ensures Snap(Hit(hit.x, hit.z + 1.0), deltas, yaw, level) == Snap(hit, deltas, yaw, level).Plus(Pos(0, 0, UNIT))
  {
    assert (hit.x + 1.0).Floor == hit.x.Floor + 1;
    assert (hit.z + 1.0).Floor == hit.z.Floor + 1;
  }

  /** A turned object snaps as an unturned one whose deltas have x and z swapped. */
  lemma SnapQuarterTurn(hit: Hit, deltas: Pos, yaw: Yaw, level: int)
    requires yaw == 90 || yaw == 270
    ensures Snap(hit, deltas, yaw, level) == Snap(hit, Pos(deltas.z, deltas.y, deltas.x), 0, level)
  {
  }

  // ---------------------------------------------------------------------
  // The selected object: what Update checks and what it does

  /**
   * What each kind's IsValidLocation and Place need of the world that the
   * source does not check: the loops of walls, floor tiles and paint must
   * reach end, a wall object's wall and every painted wall must still be
   * in the scene, and a floor tile's record must not already hold the
   * template.
   */
  ghost predicate Ready(kind: Kind, w: World, id: ObjId, start: Pos, end: Pos) {
    id in w.objects &&
    match kind
      case FloorTileKind => FloorTiles.CanCopy(w, id) && (start != end ==> FloorTiles.Aligned(start, end))
      case WallKind => Walls.Steppable(start, end)
      case WallObjectKind => WallObjects.WallLive(w.cells, w.objects, WallPosition(end, w.objects[id].yaw))
      case CommonObjectKind => true
      case WallPaintKind => WallPaints.AllWallsLive(w.cells, w.objects) && WallPaints.LineReachesEnd(start, end)
      case RoofKind => true
  }

  /** The selected object's IsValidLocation, by kind. */
  ghost predicate SelectionValid(kind: Kind, w: World, id: ObjId, activeFloor: int, offsets: seq<Pos>, start: Pos, end: Pos)
    requires Ready(kind, w, id, start, end)
  {
    match kind
      case FloorTileKind => FloorTiles.ValidLocation(w.cells, start, end)
      case WallKind => Walls.ValidWallLocation(w.cells, activeFloor, w.objects[id].yaw, start, end)
      case WallObjectKind => WallObjects.ValidSpot(w.cells, w.objects, w.objects[id].yaw, end)
      case CommonObjectKind => CommonObjects.ValidObjectLocation(w.cells, activeFloor, offsets, end)
      case WallPaintKind => WallPaints.ValidPaintLocation(w.cells, w.objects, w.objects[id].yaw, start, end)
      case RoofKind => true
  }

  /**
   * The selected object's Place, by kind, and whether it raised. floor is
   * the active floor's container, None when the active floor is outside the
   * floor array: then every kind that makes a copy raises in
   * AssignToCurrentFloor once it has made one. Paint also raises on a wall
   * position with no record or a wall without materials. A roof is one
   * copy of the template; where it is put and how it is scaled is
   * Roofs.Place.
   */
  ghost function PlaceEffect(kind: Kind, w: World, id: ObjId, floor: Option<ObjId>, activeFloor: int, offsets: seq<Pos>,
                             floorCount: int, wallMesh: Option<MeshId>, paintMaterial: MaterialId, start: Pos, end: Pos): (World, bool)
    requires Ready(kind, w, id, start, end) && forall c | c in w.objects :: c < w.nextId
  {
    match kind
      case FloorTileKind =>
        if floor.Some? then (FloorTiles.PlaceSpec(w, id, floor.value, start, end).0, false)
        else var r := FloorTiles.PlaceRaising(w, id, start, end); (r.0, r.2)
      case WallKind =>
        if floor.Some? then (Walls.PlaceSpec(w, id, floor.value, activeFloor, start, end), false)
        else Walls.PlaceRaising(w, id, activeFloor, start, end)
      case WallObjectKind =>
        if floor.Some? then (WallObjects.PlaceSpec(w, id, wallMesh, end), false)
        else WallObjects.PlaceRaising(w, id, end)
      case CommonObjectKind =>
        if floor.Some? then (CommonObjects.PlaceSpec(w, id, floor.value, activeFloor, offsets, floorCount, end), false)
        else CommonObjects.PlaceRaising(w, id, activeFloor, offsets, end)
      case WallPaintKind =>
        var (objs, ok) := WallPaints.PlaceSpec(w.objects, w.cells, w.objects[id].yaw, paintMaterial, start, end, false);
        (w.(objects := objs), !ok)
      case RoofKind => (w.(objects := w.objects[w.nextId := w.objects[id].(parent := None)], nextId := w.nextId + 1), false)
  }

  /**
   * Releasing the button while the active floor is outside the floor array
   * (where GoUp as written can leave it): every kind that makes a copy
   * leaves the store as it was; a wall, wall object or common object raises
   * exactly when its location is valid, a floor tile exactly when a cell it
   * visits has no blocker; and when it raises, the one object added is a
   * copy that belongs to no floor. Roof and paint do not read the floors.
   */
  lemma OutOfRangePlaceStrandsOneCopy(kind: Kind, w: World, id: ObjId, activeFloor: int, offsets: seq<Pos>, floorCount: int,
                                      wallMesh: Option<MeshId>, paintMaterial: MaterialId, start: Pos, end: Pos)
    requires Ready(kind, w, id, start, end) && forall c | c in w.objects :: c < w.nextId
    requires kind != WallPaintKind && kind != RoofKind
    ensures var (r, raised) := PlaceEffect(kind, w, id, None, activeFloor, offsets, floorCount, wallMesh, paintMaterial, start, end);
      && r.cells == w.cells
      && (kind != FloorTileKind ==> (raised <==> SelectionValid(kind, w, id, activeFloor, offsets, start, end)))
      && (kind == FloorTileKind ==>
            (raised <==> exists p | p in FloorTiles.Selected(start, end) :: !IsBlockerTileSet(w.cells, p)))
      && (raised ==> && r.nextId == w.nextId + 1
                     && r.objects.Keys == w.objects.Keys + {w.nextId}
                     && (forall c | c in w.objects :: r.objects[c] == w.objects[c])
                     && r.objects[w.nextId].parent.None?)
      && (!raised ==> r == w)
  {
    if kind == FloorTileKind {
      FloorTiles.PutTilesRaisingEffect(w, id, FloorTiles.Selected(start, end));
    }
  }

  /** DeselectObject: the selected object's scene object is destroyed. */
  function Deselected(w: World, id: ObjId): (r: World)
    ensures id !in r.objects && r.cells == w.cells && r.nextId == w.nextId
    ensures forall c | c in w.objects && c != id :: c in r.objects && r.objects[c] == w.objects[c]
  {
    w.(objects := w.objects - {id})
  }

  /**
   * Every kind but the floor tile checks its location again inside Place,
   * so over an invalid location its Place changes nothing; FloorTile.Place
   * does not, and for it the check in Update is what keeps an invalid
   * location from being built on.
   */
  lemma PlaceRechecksValidity(kind: Kind, w: World, id: ObjId, floor: Option<ObjId>, activeFloor: int, offsets: seq<Pos>, floorCount: int,
                              wallMesh: Option<MeshId>, paintMaterial: MaterialId, start: Pos, end: Pos)
    requires Ready(kind, w, id, start, end) && forall c | c in w.objects :: c < w.nextId
    requires kind != FloorTileKind && !SelectionValid(kind, w, id, activeFloor, offsets, start, end)
    ensures PlaceEffect(kind, w, id, floor, activeFloor, offsets, floorCount, wallMesh, paintMaterial, start, end) == (w, false)
  {
  }

  class Controller {
    /** The object being placed, or null. */
    var selectedObject: PlaceableObject?
    var placingEnabled: bool
    var blockPosition: Pos
    var previousBlockPosition: Pos
    var lastMousePosition: Screen
    var buttonDownStartPosition: Pos
    /** The floor collider's height, in floors: its world y is floorLevel * FLOOR_HEIGHT. */
    var floorLevel: int
    /** Camera.main.cullingMask and the masks InitializeLayers and Awake computed. */
    var cullingMask: bv32
    const defaultLayerMask: bv32
    const roofLayerMask: bv32
    const wallsLayerMask: bv32

    constructor(defaultLayerMask: bv32, roofLayerMask: bv32, wallsLayerMask: bv32)
      ensures this.defaultLayerMask == defaultLayerMask && this.roofLayerMask == roofLayerMask
      ensures this.wallsLayerMask == wallsLayerMask && cullingMask == defaultLayerMask
      ensures selectedObject == null && !placingEnabled && floorLevel == 0
    {
      this.defaultLayerMask := defaultLayerMask;
      this.roofLayerMask := roofLayerMask;
      this.wallsLayerMask := wallsLayerMask;
      cullingMask := defaultLayerMask;
      selectedObject := null;
      placingEnabled := false;
      blockPosition := Pos(0, 0, 0);
      previousBlockPosition := Pos(0, 0, 0);
      lastMousePosition := Screen(0.0, 0.0);
      buttonDownStartPosition := Pos(0, 0, 0);
      floorLevel := 0;
    }

    /** Reset: floor collider back to the ground, new floors, empty block store. */
    method Reset(bm: BlockManager, floors: BuildingFloorManager, scene: Scene, numberOfFloors: nat)
      requires scene.Valid() && floors.Valid(scene)
      modifies this, bm, floors, scene
      ensures scene.Valid() && floors.Valid(scene) && bm.Valid()
      ensures floorLevel == 0 && floors.activeFloor == 0 && floors.buildingFloors.Length == numberOfFloors
      ensures bm.Cells() == map[]
      ensures selectedObject == old(selectedObject) && cullingMask == old(cullingMask)
    {
      floorLevel := 0;
      floors.Reset(scene, numberOfFloors);
      bm.Reset();
    }

    /** ToggleVisibility: the camera shows the default layers, less the hidden kinds'. */
    method ToggleVisibility(isRoofVisible: bool, areWallsVisible: bool)
      modifies this
      ensures cullingMask == VisibilityMask(defaultLayerMask, roofLayerMask, wallsLayerMask, isRoofVisible, areWallsVisible)
      ensures selectedObject == old(selectedObject) && floorLevel == old(floorLevel) && blockPosition == old(blockPosition)
    {
      var mask := defaultLayerMask;
      if !isRoofVisible {
        mask := mask & !roofLayerMask;
      }
      if !areWallsVisible {
        mask := mask & !wallsLayerMask;
      }
      cullingMask := mask;
    }

    /**
     * GoUp as the source guards it. raised: BuildingFloorManager.GoUp threw
     * after stepping up, so the floor collider stays where it was.
     */
    method GoUpAsWritten(floors: BuildingFloorManager, scene: Scene) returns (raised: bool)
      requires scene.Valid() && floors.Valid(scene)
      modifies this, floors, scene
      ensures scene.Valid() && floors.Valid(scene)
      ensures var step := GoUpAsWrittenStep(FloorView(old(floors.activeFloor), floors.buildingFloors.Length));
        && FloorView(floors.activeFloor, floors.buildingFloors.Length) == step.after && raised == step.raised
        && floorLevel == (if floors.activeFloor != old(floors.activeFloor) && !raised then floors.activeFloor else old(floorLevel))
      ensures floors.buildingFloors == old(floors.buildingFloors) && selectedObject == old(selectedObject)
    {
      raised := false;
      if floors.activeFloor < NUMBER_OF_FLOORS - 1 {
        var ok := floors.GoUp(scene);
        if !ok {
          return true;
        }
        floorLevel := floors.activeFloor;
      }
    }

    /** GoUp guarded by the floors that exist: it never raises from a floor that exists. */
    method GoUp(floors: BuildingFloorManager, scene: Scene) returns (raised: bool)
      requires scene.Valid() && floors.Valid(scene)
      modifies this, floors, scene
      ensures scene.Valid() && floors.Valid(scene)
      ensures var step := GoUpStep(FloorView(old(floors.activeFloor), floors.buildingFloors.Length));
        && FloorView(floors.activeFloor, floors.buildingFloors.Length) == step.after && raised == step.raised
        && floorLevel == (if floors.activeFloor != old(floors.activeFloor) && !raised then floors.activeFloor else old(floorLevel))
      ensures floors.buildingFloors == old(floors.buildingFloors) && selectedObject == old(selectedObject)
    {
      raised := false;
      if floors.activeFloor < floors.buildingFloors.Length - 1 {
        var ok := floors.GoUp(scene);
        if !ok {
          return true;
        }
        floorLevel := floors.activeFloor;
      }
    }

    /** GoDown: only above the ground floor; raised when the active index is past the last floor. */
    method GoDown(floors: BuildingFloorManager, scene: Scene) returns (raised: bool)
      requires scene.Valid() && floors.Valid(scene)
      modifies this, floors, scene
      ensures scene.Valid() && floors.Valid(scene)
      ensures var step := GoDownStep(FloorView(old(floors.activeFloor), floors.buildingFloors.Length));
        && FloorView(floors.activeFloor, floors.buildingFloors.Length) == step.after && raised == step.raised
        && floorLevel == (if floors.activeFloor != old(floors.activeFloor) then floors.activeFloor else old(floorLevel))
      ensures floors.buildingFloors == old(floors.buildingFloors) && selectedObject == old(selectedObject)
    {
      raised := false;
      if floors.activeFloor > 0 {
        var ok := floors.GoDown(scene);
        if !ok {
          return true;
        }
        floorLevel := floors.activeFloor;
      }
    }

    /**
     * UpdateBlockPosition: only while placing and when the mouse moved
     * (or forced); a ray that misses the floor collider leaves the block
     * position as it was.
     */
    method UpdateBlockPosition(scene: Scene, mouse: Screen, forceUpdate: bool, hit: Option<Hit>)
      requires selectedObject != null && selectedObject.gameObject in scene.objects
      modifies this
      ensures selectedObject == old(selectedObject) && floorLevel == old(floorLevel)
      ensures buttonDownStartPosition == old(buttonDownStartPosition)
      ensures if placingEnabled && (mouse != old(lastMousePosition) || forceUpdate) then
          && lastMousePosition == mouse && previousBlockPosition == old(blockPosition)
          && blockPosition == (if hit.Some? then
               Snap(hit.value, selectedObject.positionDeltas, scene.objects[selectedObject.gameObject].yaw, floorLevel)
             else old(blockPosition))
        else
          && lastMousePosition == old(lastMousePosition) && previousBlockPosition == old(previousBlockPosition)
          && blockPosition == old(blockPosition)
    {
      if placingEnabled && (mouse != lastMousePosition || forceUpdate) {
        lastMousePosition := mouse;
        previousBlockPosition := blockPosition;
        if hit.Some? {
          var yaw := scene.objects[selectedObject.gameObject].yaw;
          var cx := UNIT * hit.value.x.Floor;
          var cz := UNIT * hit.value.z.Floor;
          if yaw == 0 || yaw == 180 {
            blockPosition := blockPosition.(x := cx + selectedObject.positionDeltas.x, z := cz + selectedObject.positionDeltas.z);
          } else {
            blockPosition := blockPosition.(x := cx + selectedObject.positionDeltas.z, z := cz + selectedObject.positionDeltas.x);
          }
          blockPosition := blockPosition.(y := floorLevel);
        }
      }
    }

    /** DeselectObject: the selected object is destroyed and nothing is selected. */
    method DeselectObject(scene: Scene)
      requires scene.Valid()
      modifies this, scene
      ensures scene.Valid() && scene.nextId == old(scene.nextId) && selectedObject == null
      ensures scene.objects == if old(selectedObject) != null then old(scene.objects) - {old(selectedObject).gameObject} else old(scene.objects)
      ensures floorLevel == old(floorLevel) && blockPosition == old(blockPosition)
    {
      if selectedObject != null {
        scene.Destroy(selectedObject.gameObject);
        selectedObject := null;
      }
    }
  }

  /** The selected object's IsValidLocation, dispatched on its kind. */
  method IsValidSelection(sel: PlaceableObject, bm: BlockManager, scene: Scene, floors: BuildingFloorManager, start: Pos, end: Pos)
    returns (valid: bool)
    requires bm.Valid() && Ready(sel.kind, State(bm, scene), sel.gameObject, start, end)
    ensures valid == SelectionValid(sel.kind, State(bm, scene), sel.gameObject, floors.activeFloor, sel.blockOffsets, start, end)
  {
    match sel.kind
    case FloorTileKind => valid := FloorTiles.IsValidLocation(bm, start, end);
    case WallKind => valid := Walls.IsValidLocation(sel, bm, scene, floors, start, end);
    case WallObjectKind => valid := WallObjects.IsValidLocation(sel, bm, scene, start, end);
    case CommonObjectKind => valid := CommonObjects.IsValidLocation(sel, bm, floors, start, end);
    case WallPaintKind => valid := WallPaints.IsValidLocation(sel, bm, scene, start, end);
    case RoofKind => valid := true;
  }

  /** The selected object's Place, dispatched on its kind; raised when it threw. */
  method PlaceSelection(sel: PlaceableObject, bm: BlockManager, scene: Scene, floors: BuildingFloorManager, start: Pos, end: Pos)
    returns (raised: bool)
    requires bm.Valid() && scene.Valid() && Ready(sel.kind, State(bm, scene), sel.gameObject, start, end)
    modifies bm, bm.Repr, scene
    ensures bm.Valid() && scene.Valid()
    ensures (State(bm, scene), raised) == PlaceEffect(sel.kind, old(State(bm, scene)), sel.gameObject,
      floors.Container(), floors.activeFloor, sel.blockOffsets, sel.floorCount,
      sel.wallMesh, sel.paintMaterial, start, end)
  {
    raised := false;
    match sel.kind
    case FloorTileKind =>
      var placed;
      placed, raised := FloorTiles.Place(sel, bm, scene, floors, start, end);
    case WallKind =>
      var placed;
      placed, raised := Walls.Place(sel, bm, scene, floors, start, end);
    case WallObjectKind =>
      var placed;
      placed, raised := WallObjects.Place(sel, bm, scene, floors, start, end);
    case CommonObjectKind =>
      var placed;
      placed, raised := CommonObjects.Place(sel, bm, scene, floors, start, end);
    case WallPaintKind =>
      var painted, ok := WallPaints.Place(sel, bm, scene, start, end, false);
      raised := !ok;
    case RoofKind =>
      var id := scene.Instantiate(sel.gameObject);
  }

  /**
   * The right-button release in Update: with a selection, Place runs only
   * when IsValidLocation holds, and the selection is then dropped either
   * way (unless Place threw). Without a selection nothing changes.
   */
  method Release(c: Controller, bm: BlockManager, scene: Scene, floors: BuildingFloorManager) returns (placed: bool, raised: bool)
    requires bm.Valid() && scene.Valid()
    requires c.selectedObject != null ==> Ready(c.selectedObject.kind, State(bm, scene), c.selectedObject.gameObject,
                                                c.buttonDownStartPosition, c.blockPosition)
    modifies c, bm, bm.Repr, scene
    ensures bm.Valid() && scene.Valid()
    ensures old(c.selectedObject) == null ==>
      !placed && !raised && c.selectedObject == null && State(bm, scene) == old(State(bm, scene))
    ensures old(c.selectedObject) != null ==>
      var sel := old(c.selectedObject);
      var start, end := old(c.buttonDownStartPosition), old(c.blockPosition);
      && placed == SelectionValid(sel.kind, old(State(bm, scene)), sel.gameObject, floors.activeFloor, sel.blockOffsets, start, end)
      && var effect := if placed then PlaceEffect(sel.kind, old(State(bm, scene)), sel.gameObject,
                                       floors.Container(), floors.activeFloor, sel.blockOffsets,
                                       sel.floorCount, sel.wallMesh, sel.paintMaterial, start, end)
                       else (old(State(bm, scene)), false);
         && raised == effect.1
         && (raised ==> State(bm, scene) == effect.0 && c.selectedObject == sel)
         && (!raised ==> State(bm, scene) == Deselected(effect.0, sel.gameObject) && c.selectedObject == null)
  {
    placed, raised := false, false;
    var sel := c.selectedObject;
    if sel != null {
      placed := IsValidSelection(sel, bm, scene, floors, c.buttonDownStartPosition, c.blockPosition);
      if placed {
        raised := PlaceSelection(sel, bm, scene, floors, c.buttonDownStartPosition, c.blockPosition);
        if raised {
          return;
        }
      }
      c.DeselectObject(scene);
    }
  }
}
