# HouseEditor BuilderKit in Dafny

A model of the building core of the HouseEditor BuilderKit, a Unity house
editor. The user drags floor tiles, walls, doors and windows, furniture,
wall paint and roofs onto a grid that has several floors. The model
covers these parts of the kit:

- the cell registry (`Block`, `BlockManager`), which records what each
  grid cell holds: a wall, a floor tile (real or the invisible blocker)
  and an object;
- the footprint a `PlaceableObject` computes from its mesh bounds:
  position deltas, floor count and block offsets, including the copies
  on the floors above;
- the floor stack (`BuildingFloorManager`) with its active floor and its
  temporary holder;
- the validity checks and placement of each kind of object: `FloorTile`,
  `Wall`, `WallObject`, `CommonObject`, `WallPaint` and `Roof`;
- the decisions `BuilderController` makes:
  - the up and down guards;
  - `Reset`;
  - the layer mask of `ToggleVisibility`;
  - the snapping of the mouse position to a block position;
  - the validate-then-place step run when the right mouse button is
    released.

## Coordinates and state

- A position is `Pos(x, y, z)`.
  - `x` and `z` are in half units: world `0.5` is `1`, and `UNIT = 2` is
    one block.
  - `y` is a floor index: world height `y * FLOOR_HEIGHT`.
- A wall sits half a unit off the tile grid, on the side its yaw names
  (`Grid.WallPosition`).
- The registry's string-keyed dictionary is `blocks: map<Pos, Block>` in
  the class `BlockStore.BlockManager`. Its abstraction is
  `Cells(): map<Pos, Cell>`, which `Occupancy` specifies.
- The scene graph is the class `Scenes.Scene`, a map from object ids to
  transforms: parent, position, yaw, active flag, mesh and materials.
  Only the parts the kit reads or writes are in it.
- Mutable components are classes whose methods carry
  `modifies`/`ensures`: `BuildingFloorManager`, `PlaceableObject` and the
  `Controller`.
- Each kind's behaviour is a module-level method proved against a
  specification function on a `World` (cells, objects, next id), and the
  properties are lemmas about those functions.
- Where the source throws a NullReferenceException or an
  IndexOutOfRangeException on a reachable input, the model returns
  `ok == false` (or `raised`) with the state the source leaves behind.

## Where the model follows the code rather than the written design

- A 2×2 footprint gives 8 offsets, not 9 (`Footprint.TwoByTwoHasEight`).
  The half-step grid skips the cells where both coordinates are half
  steps.
- A wall line from `x = 0` to `x = 3` places 4 walls, one per end cell
  inclusive (`Walls.LineCellsCount`).
- A multi-cell floor-tile selection floats only when every visited cell
  floats. One supported cell is enough (`FloorTiles.OneSupportedCellSuffices`).
- The wall-paint line check tests the wall at the end of the drag on
  every step, never the cell it has reached
  (`WallPaints.LineValidityTestsEndOnly`).
- `FloorTile.Place` on a z line places its tiles but returns an empty
  list. An x line and a rectangle return one entry per visited cell.
- `FloorTile.Place` does not check its location again. The check in
  `Update` is what protects it (`BuilderControls.PlaceRechecksValidity`).

## Model

| member | source | states |
|---|---|---|
| Grid.BoundsInWorldUnits | Assets/BuilderKit/Scripts/BlockManager.cs:35-40 | a position is valid exactly when it is at most 31 blocks from the origin in x and z and at most NUMBER_OF_FLOORS floors up |
| Grid.AreaValidCoversRectangle | Assets/BuilderKit/Scripts/BlockManager.cs:42-45 | checking two corners suffices: every cell of the box between two valid corners is valid |
| Grid.WallPosition | Assets/BuilderKit/Scripts/BlockManager.cs:116-135 | the wall slot is one half step from the cell, along x for yaw 0/180 and along z for 90/270, on the same floor |
| Grid.SharedWallEdge | Assets/BuilderKit/Scripts/BlockManager.cs:116-135 | a cell's wall slot for a yaw is the neighbour's slot for the opposite yaw: two cells share the wall between them |
| Grid.WallPositionIsOnAnEdge | Assets/BuilderKit/Scripts/BlockManager.cs:116-135 | from a whole cell the wall slot is whole in exactly one axis, so no wall slot is a cell |
| Grid.CeilWhole | Assets/BuilderKit/Scripts/BlockManager.cs:153 | Mathf.Ceil in half units: the least whole value not below v |
| Occupancy.NextToTileExplicit | Assets/BuilderKit/Scripts/BlockManager.cs:184-202 | next to a tile iff one of the four neighbours one block away holds a real (non-blocker) tile |
| Occupancy.NextToWallMeansWallAtSomeYaw | Assets/BuilderKit/Scripts/BlockManager.cs:207-225 | next to a wall iff some yaw's wall slot around the cell holds a wall |
| Occupancy.PutFloorTileEffect | Assets/BuilderKit/Scripts/BlockManager.cs:99-113 | the record at p is created if missing; its tile becomes the new tile unless a blocker is set; wall, object and every other record are kept |
| Occupancy.PutWallEffect | Assets/BuilderKit/Scripts/BlockManager.cs:137-141 | only the record at the wall slot changes; it gets the wall and keeps its tile and object |
| Occupancy.PutObjectEffect | Assets/BuilderKit/Scripts/BlockManager.cs:152-171 | every covered cell holds the object; entries from the floor-blocks limit on get the blocker tile; other cells are untouched; the keys grow by the covered cells |
| Occupancy.WallAndObjectCoexist | Assets/BuilderKit/Scripts/Block.cs:6-10 | one block holds a wall and an object at once without either displacing the other |
| BlockStore.Block.constructor | Assets/BuilderKit/Scripts/Block.cs:6-10 | a new block holds no wall, no tile and no object |
| BlockStore.BlockManager.constructor | Assets/BuilderKit/Scripts/BlockManager.cs:17-28 | the registry starts empty |
| BlockStore.BlockManager.Reset | Assets/BuilderKit/Scripts/BlockManager.cs:30-32 | every record is dropped |
| BlockStore.BlockManager.GetBlock | Assets/BuilderKit/Scripts/BlockManager.cs:84-93 | with add, returns the record at p and creates an empty one only when missing; without add, returns it or null and changes nothing |
| BlockStore.BlockManager.GetWallBlock | Assets/BuilderKit/Scripts/BlockManager.cs:95-97 | GetBlock at the wall slot for the yaw |
| BlockStore.BlockManager.PutFloorTile | Assets/BuilderKit/Scripts/BlockManager.cs:99-113 | the cells become Occupancy.PutFloorTile, and the replaced real tile's object is destroyed |
| BlockStore.BlockManager.PutWall | Assets/BuilderKit/Scripts/BlockManager.cs:137-141 | the cells become Occupancy.PutWall at the wall slot |
| BlockStore.BlockManager.PutWallObject | Assets/BuilderKit/Scripts/BlockManager.cs:144-150 | the object becomes a child of the wall at its slot when there is one; otherwise nothing changes |
| BlockStore.BlockManager.PutObject | Assets/BuilderKit/Scripts/BlockManager.cs:152-171 | the cells become Occupancy.PutObject around the rounded-up base with the floor-blocks limit, and one block per offset is returned |
| BlockStore.BlockManager.PutObjectAt | Assets/BuilderKit/Scripts/BlockManager.cs:159-166 | one loop step: the record at k gets the object, and the blocker tile when asked |
| BlockStore.BlockManager.HasTile | Assets/BuilderKit/Scripts/BlockManager.cs:176-179 | a record with a real tile, not the blocker |
| BlockStore.BlockManager.IsBlockerTileSet | Assets/BuilderKit/Scripts/BlockManager.cs:231-234 | a record holding the blocker tile |
| BlockStore.BlockManager.IsNextToTile | Assets/BuilderKit/Scripts/BlockManager.cs:184-202 | the loop over the four unit neighbours returns Occupancy.IsNextToTile |
| BlockStore.BlockManager.IsNextToWall | Assets/BuilderKit/Scripts/BlockManager.cs:207-225 | the loop over the four half-step neighbours returns Occupancy.IsNextToWall |
| BlockStore.BlockManager.IsCellEmpty | Assets/BuilderKit/Scripts/BlockManager.cs:48-52 | the single-cell case of IsAreaEmpty: no record, or a record with no object |
| Footprint.RoundHalfEven | Assets/BuilderKit/Scripts/PlaceableObject.cs:57 | Mathf.RoundToInt: nearest integer, ties to even |
| Footprint.CeilToInt | Assets/BuilderKit/Scripts/PlaceableObject.cs:78-79 | the least integer not below r |
| Footprint.CellCount | Assets/BuilderKit/Scripts/PlaceableObject.cs:77-79 | the number of cells a size spans after the 0.15 tolerance is removed |
| Footprint.Deltas | Assets/BuilderKit/Scripts/PlaceableObject.cs:66-74 | the delta is minus half a unit on exactly the axes whose rounded size is positive and even, and zero elsewhere |
| Footprint.FloorCountCases | Assets/BuilderKit/Scripts/PlaceableObject.cs:56-61 | floor count by the height-to-floor ratio r: 0 up to 0.5, 1 up to 1, 2 below 1.5, and round(r)+1 from 1.5 |
| Footprint.FloorCountCoversHeight | Assets/BuilderKit/Scripts/PlaceableObject.cs:56-61 | an object taller than half a floor gets at least one floor, and its floors cover its height |
| Footprint.BaseMembership | Assets/BuilderKit/Scripts/PlaceableObject.cs:86-103 | an offset is in the base exactly when it lies on the half-step grid inside the bounds with at least one coordinate on a whole step, centred on the middle |
| Footprint.BaseCount | Assets/BuilderKit/Scripts/PlaceableObject.cs:86-103 | the base of an x-by-z object has (2x-1)(2z-1) - (x-1)(z-1) entries |
| Footprint.TwoByTwoHasEight | Assets/BuilderKit/Scripts/PlaceableObject.cs:86-103 | a 2×2 object has 8 base offsets |
| Footprint.Copies | Assets/BuilderKit/Scripts/PlaceableObject.cs:108-112 | one lifted copy of an offset for each floor above the first |
| Footprint.UpperMembership | Assets/BuilderKit/Scripts/PlaceableObject.cs:105-115 | the extra offsets are exactly each base offset lifted to floors 1 .. floorCount-1 |
| Footprint.SmallObjectOccupiesOneCell | Assets/BuilderKit/Scripts/PlaceableObject.cs:83-84 | an object at most one cell wide in x and z occupies only its own cell, whatever its height |
| Footprint.LargeObjectOffsets | Assets/BuilderKit/Scripts/PlaceableObject.cs:76-117 | a larger object's offsets are the ground base first, then exactly the lifted copies, floorCount times the base in all |
| Footprint.GridOffsets | Assets/BuilderKit/Scripts/PlaceableObject.cs:86-115 | ground base first and all at height 0, then exactly the lifted copies, with the total length |
| Footprint.GroundFirst | Assets/BuilderKit/Scripts/PlaceableObject.cs:105-115 | appending the upper floors keeps the base as the prefix, at height 0 |
| Footprint.UpperFloorsMembership | Assets/BuilderKit/Scripts/PlaceableObject.cs:105-115 | what follows the base is exactly the set of lifted copies |
| Footprint.UpperFloorsLength | Assets/BuilderKit/Scripts/PlaceableObject.cs:105-115 | with more than one floor the list is floorCount times the base |
| Footprint.FlatWideObjectOccupiesNothing | Assets/BuilderKit/Scripts/PlaceableObject.cs:86-103 | an object wider than one cell but with no depth gets no offsets at all |
| Footprint.FootprintSymmetricAboutDeltas | Assets/BuilderKit/Scripts/PlaceableObject.cs:66-103 | mirrored through the position delta, a base offset is again a base offset: the delta is the footprint's centre |
| Floors.NewFloors | Assets/BuilderKit/Scripts/BuildingFloorManager.cs:32-41 | the scene gains exactly the ids first .. first+n-1 |
| Floors.NewFloorsAt | Assets/BuilderKit/Scripts/BuildingFloorManager.cs:32-41 | each new floor is an empty object at its own floor height, and older objects are kept |
| Floors.BuildingFloorManager.constructor | Assets/BuilderKit/Scripts/BuildingFloorManager.cs:11-17 | NUMBER_OF_FLOORS fresh floors, the active floor 0, and a temp floor one floor below ground |
| Floors.BuildingFloorManager.AddFloors | Assets/BuilderKit/Scripts/BuildingFloorManager.cs:32-41 | a fresh array of n new floor objects in id order |
| Floors.BuildingFloorManager.Reset | Assets/BuilderKit/Scripts/BuildingFloorManager.cs:19-30 | the old floors found by name are destroyed, n new ones are made, and the active floor is 0 |
| Floors.BuildingFloorManager.GoDown | Assets/BuilderKit/Scripts/BuildingFloorManager.cs:43-46 | hides the active floor and steps down; an index outside the array raises with nothing changed |
| Floors.BuildingFloorManager.GoUp | Assets/BuilderKit/Scripts/BuildingFloorManager.cs:48-51 | steps up, then shows that floor; the step is kept when the new index raises |
| Floors.BuildingFloorManager.AssignToCurrentFloor | Assets/BuilderKit/Scripts/BuildingFloorManager.cs:53-55 | with the active floor inside the array the object is re-parented under that floor and nothing else changes; outside it the index raises, ok is false and nothing changes |
| Floors.BuildingFloorManager.Container | Assets/BuilderKit/Scripts/BuildingFloorManager.cs:53-55 | the floor object buildingFloors[activeFloor], present exactly when the active floor indexes the array |
| Floors.BuildingFloorManager.AssignToTempFloor | Assets/BuilderKit/Scripts/BuildingFloorManager.cs:57-59 | the object is re-parented under the temp floor and nothing else changes |
| Placeables.QuarterTurns | Assets/BuilderKit/Scripts/PlaceableObject.cs:151-156 | four rotations return to the start, two face the opposite way, and one always changes the yaw |
| Placeables.WallTurnsAlternate | Assets/BuilderKit/Scripts/Wall.cs:165-170 | a wall's rotation lands on 0 or 90 and toggles between them |
| Placeables.QuarterTurnTransposesFootprint | Assets/BuilderKit/Scripts/PlaceableObject.cs:151-156 | after a quarter turn the base footprint is the old one with x and z swapped |
| Placeables.ComputeBlockOffsets | Assets/BuilderKit/Scripts/PlaceableObject.cs:76-117 | the loops produce exactly Footprint.BlockOffsets |
| Placeables.GroundOffsets | Assets/BuilderKit/Scripts/PlaceableObject.cs:86-103 | the nested half-step loops produce exactly the base offsets |
| Placeables.AddUpperFloors | Assets/BuilderKit/Scripts/PlaceableObject.cs:105-115 | the foreach and floor loops append exactly the lifted copies, in order |
| Placeables.MakeCopy | Assets/BuilderKit/Scripts/CommonObject.cs:28-34 | Instantiate plus AssignToCurrentFloor: a fresh copy of the template at p with the same footprint, under the active floor when it indexes the array; otherwise the copy stays at p with no parent and ok is false |
| Placeables.StrandedCopyIsOrphan | Assets/BuilderKit/Scripts/CommonObject.cs:28-31 | a copy made before AssignToCurrentFloor raises: the store is untouched, every existing object is kept, and the one new object is at p with no parent |
| Placeables.PlaceableObject.Init | Assets/BuilderKit/Scripts/PlaceableObject.cs:44-54 | with a renderer, the deltas, floor count and offsets come from the world-space bounds; without one, they are untouched |
| Placeables.PlaceableObject.CalculateBlockOffsets | Assets/BuilderKit/Scripts/PlaceableObject.cs:76-117 | the offsets are recomputed for the current yaw, and nothing else changes |
| Placeables.PlaceableObject.Rotate | Assets/BuilderKit/Scripts/PlaceableObject.cs:151-156 | the yaw advances by 90 modulo 360 and the offsets follow the turned bounds |
| Placeables.PlaceableObject.RotateWall | Assets/BuilderKit/Scripts/Wall.cs:165-170 | the yaw toggles 0/90 and the offsets follow |
| FloorTiles.StepBlock | Assets/BuilderKit/Scripts/FloorTile.cs:137-162 | one step along the chosen axis moves a whole unit closer to end and changes nothing else |
| FloorTiles.WalkZCells | Assets/BuilderKit/Scripts/FloorTile.cs:28-39 | the z loop visits exactly the cells on the half-open run from current to end |
| FloorTiles.WalkXCells | Assets/BuilderKit/Scripts/FloorTile.cs:42-53 | the x loop visits exactly the cells on the half-open run along x |
| FloorTiles.WalkRectCells | Assets/BuilderKit/Scripts/FloorTile.cs:55-70 | the nested loops visit exactly the cells of the half-open rectangle |
| FloorTiles.AdjustedAxis | Assets/BuilderKit/Scripts/FloorTile.cs:164-190 | pushing the end one unit further turns the half-open run into the closed range from start to end |
| FloorTiles.VisitedIsTheSelection | Assets/BuilderKit/Scripts/FloorTile.cs:21-74 | after the end adjustment, the visited cells are exactly the selection box, ends included, on the whole-unit grid |
| FloorTiles.HeightOnlySelectionVisitsNothing | Assets/BuilderKit/Scripts/FloorTile.cs:21-39 | a selection that differs only in height visits no cell |
| FloorTiles.GroundNeverFloats | Assets/BuilderKit/Scripts/FloorTile.cs:88-103 | on the ground floor nothing floats |
| FloorTiles.OneSupportedCellSuffices | Assets/BuilderKit/Scripts/FloorTile.cs:21-74 | a multi-cell selection with one cell next to a tile or above a wall does not float |
| FloorTiles.TileBesideTileIsValid | Assets/BuilderKit/Scripts/FloorTile.cs:105-110 | a single in-bounds cell with no blocker, next to a tile, is a valid location |
| FloorTiles.IsFloatingCell | Assets/BuilderKit/Scripts/FloorTile.cs:76-80 | a cell floats iff no neighbour has a tile and no wall is around the cell one floor below |
| FloorTiles.RunFloats | Assets/BuilderKit/Scripts/FloorTile.cs:28-39 | the early-exit z loop reports that every cell of the run floats |
| FloorTiles.LineFloats | Assets/BuilderKit/Scripts/FloorTile.cs:42-53 | the early-exit x loop reports that every cell of the run floats |
| FloorTiles.RectFloats | Assets/BuilderKit/Scripts/FloorTile.cs:55-70 | the nested loops report that every cell of the rectangle floats |
| FloorTiles.IsFloatingArea | Assets/BuilderKit/Scripts/FloorTile.cs:21-74 | the area floats iff every visited cell floats |
| FloorTiles.IsFloating | Assets/BuilderKit/Scripts/FloorTile.cs:88-103 | nothing floats on the ground floor; otherwise the single cell or the whole area is checked |
| FloorTiles.IsValidLocation | Assets/BuilderKit/Scripts/FloorTile.cs:105-110 | both corners in bounds, not floating, and a single cell not blocked |
| FloorTiles.PutTileSpecEffect | Assets/BuilderKit/Scripts/FloorTile.cs:112-125 | a blocked cell is left alone and gives null; otherwise the cell gets a fresh tile; walls, objects, blockers and other cells are kept |
| FloorTiles.PutTilesAppend | Assets/BuilderKit/Scripts/FloorTile.cs:227-238 | placing over a + b is placing over a and then over b, with the returned entries concatenated |
| FloorTiles.PutTilesFrame | Assets/BuilderKit/Scripts/FloorTile.cs:192-242 | a run of placements keeps blockers, walls and objects, and leaves unvisited cells untouched |
| FloorTiles.PutTilesCovers | Assets/BuilderKit/Scripts/FloorTile.cs:192-242 | every visited unblocked cell ends up with a tile created by the run |
| FloorTiles.PutTilesIds | Assets/BuilderKit/Scripts/FloorTile.cs:192-242 | entry k of the returned list is null exactly when cell k was blocked |
| FloorTiles.PutTilesEffect | Assets/BuilderKit/Scripts/FloorTile.cs:192-242 | PutTilesFrame, PutTilesCovers and PutTilesIds together: coverage, the frame and the null entries |
| FloorTiles.FirstFreeIsEarliest | Assets/BuilderKit/Scripts/FloorTile.cs:115-121 | the first cell PutTile copies at is the earliest cell without a blocker, and there is none exactly when every cell holds a blocker |
| FloorTiles.PutTilesRaisingEffect | Assets/BuilderKit/Scripts/FloorTile.cs:192-242 | with the active floor out of range the store is never written; the run raises exactly when some cell has no blocker, and then one parentless copy sits at the earliest such cell; otherwise nothing changes and every entry is null |
| FloorTiles.PutTile | Assets/BuilderKit/Scripts/FloorTile.cs:112-125 | with the active floor in range the world becomes PutTileSpec and the result is its new id or null; out of range it raises exactly on an unblocked cell, leaving a parentless copy there, and otherwise changes nothing |
| FloorTiles.PutCopy | Assets/BuilderKit/Scripts/FloorTile.cs:115-121 | the unblocked branch of PutTile: it raises exactly when the active floor is out of range, leaving a parentless copy and an untouched store |
| FloorTiles.PlaceAlongZ | Assets/BuilderKit/Scripts/FloorTile.cs:208-215 | the z loop performs PutTiles over the z run; out of range it performs PutTilesRaising, stopping at the first raise |
| FloorTiles.PlaceAlongX | Assets/BuilderKit/Scripts/FloorTile.cs:218-225 | the x loop performs PutTiles over the x run and returns its entries; out of range it performs PutTilesRaising |
| FloorTiles.PlaceRect | Assets/BuilderKit/Scripts/FloorTile.cs:227-238 | the nested loops perform PutTiles over the rectangle, row by row; out of range they perform PutTilesRaising and stop at the first raise |
| FloorTiles.Place | Assets/BuilderKit/Scripts/FloorTile.cs:192-242 | the world and the returned list are PlaceSpec (a single cell, an x line, a z line with an empty list, or a rectangle); out of range they are PlaceRaising |
| FloorTiles.PickUp | Assets/BuilderKit/Scripts/FloorTile.cs:127-131 | the tile's record loses its tile and the object goes to the temp floor; with no record the source throws and nothing changes |
| FloorTiles.ClearTileAt | Assets/BuilderKit/Scripts/FloorTile.cs:129 | the record's tile is cleared and nothing else changes |
| FloorTiles.PlaceThenPickUpRestoresCell | Assets/BuilderKit/Scripts/FloorTile.cs:112-131 | putting a tile on an untiled record and picking it up restores the record |
| Walls.RunXCells | Assets/BuilderKit/Scripts/Wall.cs:126-138 | the x loop visits exactly the whole cells from start to end inclusive, \|dx\|+1 of them |
| Walls.RunZCells | Assets/BuilderKit/Scripts/Wall.cs:139-153 | the z loop visits exactly the whole cells from start to end inclusive, \|dz\|+1 of them |
| Walls.LineCellsCount | Assets/BuilderKit/Scripts/Wall.cs:117-158 | a straight line places one wall per end-inclusive cell, starting at start |
| Walls.AllOkMeansEach | Assets/BuilderKit/Scripts/Wall.cs:66-90 | a line accepted by the loop has every one of its cells acceptable |
| Walls.GroundFloorWallNeverFloats | Assets/BuilderKit/Scripts/Wall.cs:30-51 | on the ground floor a wall never floats |
| Walls.EmptyRecordBelowSupports | Assets/BuilderKit/Scripts/Wall.cs:33-48 | any record at the wall slot one floor below, even an empty one, counts as support |
| Walls.BlockerBesideSupports | Assets/BuilderKit/Scripts/Wall.cs:22-25 | a blocker tile beside a wall counts as a tile, so the wall does not float |
| Walls.DiagonalIsInvalid | Assets/BuilderKit/Scripts/Wall.cs:62-64 | a drag that changes both x and z is refused |
| Walls.ValidRunIsFreeThroughout | Assets/BuilderKit/Scripts/Wall.cs:66-92 | in an accepted line every cell between start and end is free of walls and objects and does not float |
| Walls.PutWalls | Assets/BuilderKit/Scripts/Wall.cs:117-158 | one new object per visited cell, and the template is untouched |
| Walls.PutWallsEffect | Assets/BuilderKit/Scripts/Wall.cs:99-106 | each visited cell's wall slot holds a wall created by the run; tiles and objects are kept; other slots are untouched |
| Walls.PlaceThenPickUpRestores | Assets/BuilderKit/Scripts/Wall.cs:99-115 | putting a wall in a free slot and picking it up restores every cell |
| Walls.PlacedSpotIsTaken | Assets/BuilderKit/Scripts/Wall.cs:56-60 | once a wall is put, the same single spot is no longer valid |
| Walls.IsBlockTiled | Assets/BuilderKit/Scripts/Wall.cs:22-25 | a record with any tile, the blocker included |
| Walls.IsFloating | Assets/BuilderKit/Scripts/Wall.cs:30-51 | above ground, with no record below, a wall floats iff neither side across its face is tiled |
| Walls.CellAcceptable | Assets/BuilderKit/Scripts/Wall.cs:72-75 | a line cell is free of walls and objects and does not float |
| Walls.RunValidZ | Assets/BuilderKit/Scripts/Wall.cs:66-77 | the early-exit z loop accepts iff every cell of the inclusive run is acceptable |
| Walls.RunValidX | Assets/BuilderKit/Scripts/Wall.cs:78-89 | the early-exit x loop accepts iff every cell of the inclusive run is acceptable |
| Walls.IsValidLocation | Assets/BuilderKit/Scripts/Wall.cs:53-97 | the result is the single-cell test, a refusal for diagonals, or the line test together with IsAreaValid |
| Walls.PutWall | Assets/BuilderKit/Scripts/Wall.cs:99-106 | a copy at p under the active floor, recorded at its wall slot; it raises exactly when the active floor is out of range, leaving the copy at p with no parent and the store untouched |
| Walls.PlaceAlongX | Assets/BuilderKit/Scripts/Wall.cs:126-138 | the x loop performs PutWalls over the inclusive run and returns the copies in order; out of range the first copy raises and strands one copy at start |
| Walls.PlaceAlongZ | Assets/BuilderKit/Scripts/Wall.cs:139-153 | the z loop performs PutWalls over the inclusive run and returns the copies in order; out of range the first copy raises and strands one copy at start |
| Walls.Place | Assets/BuilderKit/Scripts/Wall.cs:117-158 | in range the world is PlaceSpec (nothing when invalid) and the number of copies returned is PlacedCount; out of range it is PlaceRaising |
| Walls.PlaceRaisingEffect | Assets/BuilderKit/Scripts/Wall.cs:99-158 | out of range a valid placement raises at its first wall, leaving one parentless copy at start and the store untouched; an invalid one changes nothing |
| Walls.PickUp | Assets/BuilderKit/Scripts/Wall.cs:108-115 | the wall slot loses its wall when recorded, and the wall goes to the temp floor |
| WallObjects.PlacedObjectHangsOnWall | Assets/BuilderKit/Scripts/WallObject.cs:33-45 | a placed door or window is a child of the wall, the wall shows the object's wall mesh when it has one, and the cells are unchanged |
| WallObjects.SecondObjectRejected | Assets/BuilderKit/Scripts/WallObject.cs:28-31 | after a placement the same spot is no longer valid: a wall carries one object |
| WallObjects.PickUpFreesSpot | Assets/BuilderKit/Scripts/WallObject.cs:47-57 | after pick-up the wall has no children, so the spot is valid again |
| WallObjects.PlaceThenPickUpRestoresWall | Assets/BuilderKit/Scripts/WallObject.cs:33-57 | placing and picking up gives the wall its saved mesh back and leaves it childless |
| WallObjects.IsValidLocation | Assets/BuilderKit/Scripts/WallObject.cs:28-31 | valid iff end's wall slot holds a wall with no children |
| WallObjects.PutWallObject | Assets/BuilderKit/Scripts/WallObject.cs:33-45 | the world becomes PutWallObjectSpec and the copy saves the wall's previous mesh when it swaps it; it raises exactly when the active floor is out of range, leaving the copy at p with no parent |
| WallObjects.Place | Assets/BuilderKit/Scripts/WallObject.cs:59-66 | in range one copy at end when valid and none otherwise, with the world given by PlaceSpec; out of range the world is PlaceRaising: a valid spot raises and strands one copy |
| WallObjects.PickUp | Assets/BuilderKit/Scripts/WallObject.cs:47-57 | the scene becomes PickUpSpec; with no wall at the slot the source throws and nothing changes |
| CommonObjects.ClearObjectEffect | Assets/BuilderKit/Scripts/CommonObject.cs:40-48 | the pick-up loop creates no record; each covered record loses its object and, past the floor-blocks limit, its tile; others are untouched |
| CommonObjects.PutThenClearRestores | Assets/BuilderKit/Scripts/CommonObject.cs:36-51 | clearing the footprint just put, at the same base, restores every cell |
| CommonObjects.PlaceThenPickUpRestores | Assets/BuilderKit/Scripts/CommonObject.cs:28-51 | a valid placement followed by a pick-up at the object's own base restores every cell |
| CommonObjects.SameSpotRefusedAfterPlace | Assets/BuilderKit/Scripts/CommonObject.cs:10-26 | once placed, the same location is refused |
| CommonObjects.UpperFloorPickUpLeavesObject | Assets/BuilderKit/Scripts/CommonObject.cs:37 | as written, picking up an object placed above the ground leaves it recorded in its cells |
| CommonObjects.IsValidLocation | Assets/BuilderKit/Scripts/CommonObject.cs:10-26 | every offset around the rounded-up base is in bounds and holds no object or wall; above ground, every offset off the wall lines has a real tile |
| CommonObjects.PutObject | Assets/BuilderKit/Scripts/CommonObject.cs:28-34 | the world becomes PutObjectSpec: a copy under the active floor, recorded in its footprint; it raises exactly when the active floor is out of range, leaving the copy at p with no parent and the store untouched |
| CommonObjects.Place | Assets/BuilderKit/Scripts/CommonObject.cs:53-61 | in range one copy at end when valid and none otherwise, with the world given by PlaceSpec; out of range the world is PlaceRaising: a valid location raises and strands one copy |
| CommonObjects.ClearAt | Assets/BuilderKit/Scripts/CommonObject.cs:41-47 | one loop step: an existing record loses its object, and its tile when asked |
| CommonObjects.ClearFootprint | Assets/BuilderKit/Scripts/CommonObject.cs:38-48 | the loop performs ClearObject over all the offsets |
| CommonObjects.PickUpFrom | Assets/BuilderKit/Scripts/CommonObject.cs:36-51 | the footprint is cleared from the given base, the offsets are recomputed, and the object goes to the temp floor |
| CommonObjects.PickUpAsWritten | Assets/BuilderKit/Scripts/CommonObject.cs:36-51 | the same, from the base the source computes, whose height is 0 |
| CommonObjects.PickUp | Assets/BuilderKit/Scripts/CommonObject.cs:36-51 | the same, from the object's own base, where PutObject recorded it |
| WallPaints.PaintChangesOneSlot | Assets/BuilderKit/Scripts/WallPaint.cs:70-91 | painting replaces exactly one material slot of exactly one wall (the inside when yaws agree, else the outside; the only slot of a one-sided wall), or nothing when no wall is recorded |
| WallPaints.PaintIdempotent | Assets/BuilderKit/Scripts/WallPaint.cs:70-91 | painting the same spot twice is painting it once |
| WallPaints.PaintAllSucceeds | Assets/BuilderKit/Scripts/WallPaint.cs:110-137 | when every visited slot has a record and every wall has materials, a painted line never throws |
| WallPaints.LineValidityTestsEndOnly | Assets/BuilderKit/Scripts/WallPaint.cs:37-59 | a line's validity depends only on the wall at end |
| WallPaints.ValidBlockAt | Assets/BuilderKit/Scripts/WallPaint.cs:66-68 | a record holding a wall that allows painting |
| WallPaints.ScanLine | Assets/BuilderKit/Scripts/WallPaint.cs:42-48 | the early-exit loop accepts iff it takes no step or the end's wall is paintable |
| WallPaints.IsValidLocation | Assets/BuilderKit/Scripts/WallPaint.cs:27-64 | a single paintable wall, no diagonals, and along a line the wall at end |
| WallPaints.Paint | Assets/BuilderKit/Scripts/WallPaint.cs:70-91 | the scene becomes PaintSpec; where the source throws, nothing changes and false is returned |
| WallPaints.PaintAlongZ | Assets/BuilderKit/Scripts/WallPaint.cs:112-124 | the z loop performs PaintAll over the inclusive run, stopping where it throws |
| WallPaints.PaintNext | Assets/BuilderKit/Scripts/WallPaint.cs:121-123 | one loop step of PaintAll |
| WallPaints.PaintAlongX | Assets/BuilderKit/Scripts/WallPaint.cs:125-137 | the x loop performs PaintAll over the inclusive run, stopping where it throws |
| WallPaints.Place | Assets/BuilderKit/Scripts/WallPaint.cs:101-142 | the scene is PlaceSpec: nothing when invalid or on a single cell with the modifier, else one spot or a line painted; the returned list is always empty |
| WallPaints.PaintSelection | Assets/BuilderKit/Scripts/WallPaint.cs:104-138 | the branch of Place after the validity check |
| Roofs.Place | Assets/BuilderKit/Scripts/Roof.cs:31-60 | one roof, at least one block in x and z, its height between 1 and maxElevation when maxElevation is at least 1 |
| Roofs.HeightBelowOneCap | Assets/BuilderKit/Scripts/Roof.cs:37-44 | with maxElevation below 1 the cap wins whenever 0.3·min span is above it, else the floor of 1 |
| Roofs.DragDirectionIrrelevant | Assets/BuilderKit/Scripts/Roof.cs:34-36 | dragging from end to start gives the same roof |
| Roofs.RoofCentredOnDrag | Assets/BuilderKit/Scripts/Roof.cs:34-46 | the roof is centred between start and end in x and z, raised by a fifth of its height |
| Roofs.QuarterTurnSwapsExtents | Assets/BuilderKit/Scripts/Roof.cs:51-55 | at 90 or 270 the x and z scales swap, while the position and the covered area stay the same |
| BuilderControls.GoUpAsWrittenStrands | Assets/BuilderKit/Scripts/BuilderController.cs:184-192 | with fewer floors than configured, going up from the top floor passes the guard, raises, and leaves GoDown raising without moving |
| BuilderControls.FloorStepsStayInRange | Assets/BuilderKit/Scripts/BuilderController.cs:184-203 | with the guard on the floors that exist, up and down never raise, stay in range, and saturate at the ends |
| BuilderControls.GoUpAgreesOnConfiguredFloors | Assets/BuilderKit/Scripts/BuilderController.cs:184-192 | with NUMBER_OF_FLOORS floors, the written guard and the corrected one agree |
| BuilderControls.UpThenDownReturns | Assets/BuilderKit/Scripts/BuilderController.cs:184-203 | below the top floor, going up and then down returns to the same floor |
| BuilderControls.VisibilityMaskWithinDefault | Assets/BuilderKit/Scripts/BuilderController.cs:166-181 | the culling mask never shows a layer the default mask hides |
| BuilderControls.VisibilityMaskClearsHidden | Assets/BuilderKit/Scripts/BuilderController.cs:166-181 | hidden roofs or walls have their layer bits cleared |
| BuilderControls.VisibilityMaskKeepsVisible | Assets/BuilderKit/Scripts/BuilderController.cs:166-181 | every other bit is the default's; visible layers keep their default bits; all visible gives the default mask |
| BuilderControls.SnapContainsHit | Assets/BuilderKit/Scripts/BuilderController.cs:229-233 | at yaw 0 or 180 the block position minus the deltas is the whole cell containing the hit, on the floor's level |
| BuilderControls.SnapShiftsByWholeUnits | Assets/BuilderKit/Scripts/BuilderController.cs:229-238 | moving the hit one unit moves the block position one block |
| BuilderControls.SnapQuarterTurn | Assets/BuilderKit/Scripts/BuilderController.cs:234-238 | at 90 or 270 the deltas are applied with x and z swapped |
| BuilderControls.Deselected | Assets/BuilderKit/Scripts/BuilderController.cs:318-329 | the selected object itself is destroyed; every other object, its children included, is kept as it was |
| BuilderControls.PlaceRechecksValidity | Assets/BuilderKit/Scripts/BuilderController.cs:451-463 | every kind but the floor tile changes nothing in Place over an invalid location |
| BuilderControls.OutOfRangePlaceStrandsOneCopy | Assets/BuilderKit/Scripts/BuilderController.cs:451-463 | with the active floor out of range, placing a tile, wall, door or object never writes the store; it raises exactly when the selection is valid (for tiles: some selected cell is unblocked), and then adds one parentless object; otherwise nothing changes |
| BuilderControls.Controller.Reset | Assets/BuilderKit/Scripts/BuilderController.cs:97-103 | the floor goes back to level 0, the floors are rebuilt with the active floor 0, and the registry is empty |
| BuilderControls.Controller.ToggleVisibility | Assets/BuilderKit/Scripts/BuilderController.cs:166-181 | the culling mask becomes VisibilityMask of the flags |
| BuilderControls.Controller.GoUpAsWritten | Assets/BuilderKit/Scripts/BuilderController.cs:184-192 | the floors follow GoUpAsWrittenStep, and the floor collider moves only when nothing raised |
| BuilderControls.Controller.GoUp | Assets/BuilderKit/Scripts/BuilderController.cs:184-192 | the floors follow GoUpStep, with the guard on the floors that exist |
| BuilderControls.Controller.GoDown | Assets/BuilderKit/Scripts/BuilderController.cs:195-203 | the floors follow GoDownStep, and the floor collider follows the active floor |
| BuilderControls.Controller.UpdateBlockPosition | Assets/BuilderKit/Scripts/BuilderController.cs:216-242 | only when placing and the mouse moved (or forced): the previous position is saved and, on a hit, the block position is Snap of the hit; otherwise nothing changes |
| BuilderControls.Controller.DeselectObject | Assets/BuilderKit/Scripts/BuilderController.cs:318-329 | the selected object itself is destroyed and the selection is cleared |
| BuilderControls.IsValidSelection | Assets/BuilderKit/Scripts/BuilderController.cs:455 | dispatches to the selected kind's IsValidLocation |
| BuilderControls.PlaceSelection | Assets/BuilderKit/Scripts/BuilderController.cs:455-459 | dispatches to the selected kind's Place, and the world and the raise become PlaceEffect with the active floor's container, or none when it is out of range |
| BuilderControls.Release | Assets/BuilderKit/Scripts/BuilderController.cs:451-468 | with a selection, Place runs exactly when the location is valid, and the selection is then destroyed unless Place raised, also when the active floor is out of range; with none, nothing changes |

## Left out

- Rendering, sound, the cursor, UI panels and the selection-area
  preview are not modelled. The camera's culling mask is a `bv32`
  field, and the layer masks that `InitializeLayers` computes are
  constructor parameters.
- Raycasting and mouse input are parameters of
  `Controller.UpdateBlockPosition`: the hit point, or none, and the
  mouse position. `FloorGrid.MoveToFloor` is not modelled. The floor
  collider's height is the `floorLevel` field.
- Unity's "fake null" for destroyed objects is not modelled, and
  neither is the normalisation of Euler angles. Yaws are exactly 0, 90,
  180 and 270. Floor heights are floor indices, and the string keys of
  the block dictionary are positions.
- `WallPaint.PickUp` is left out: it does nothing. `PaintRoom` is left
  out: its body is empty. A paint without a renderer (null material) is
  not modelled.
- `WallObject.LoadWallMesh` is left out: its search of child objects by
  name is replaced by the component's `wallMesh` field.
- Roofs.Place: returns the roof's position and scale as a value. It
  does not create the roof's scene object and does not parent it to a
  floor. The controller adds the copy, and the `positionDeltas` the
  roof's `Start` sets are not modelled.
- `Select` is not modelled for any kind. It only toggles visibility,
  which `ToggleVisibility` models.
- The multi-cell branch of `BlockManager.IsAreaEmpty` is not modelled:
  nothing in the modelled core calls it. `BlockStore.BlockManager.IsCellEmpty`
  models the single-cell branch.
- BlockStore.BlockManager.PutObject: states the cells and the number of
  blocks returned, not which block sits at which index of the returned
  array.
- The destruction of child objects when `BuildingFloorManager.Reset`
  destroys a floor is not modelled. Only the floor objects themselves
  are removed.
- Floors.BuildingFloorManager.AddFloors: takes a `nat` count. A
  negative count makes the source throw on the array allocation.
- Walls.IsValidLocation: requires the moving coordinate of a straight
  line to be whole at both ends (`Steppable`). Otherwise the source's
  integer loop never reaches the end and hangs. The same holds for
  Walls.Place.
- WallPaints.IsValidLocation: requires only that a straight line's ends
  differ by a whole number of units on the axis it runs along
  (`LineReachesEnd`). The source's loops step one unit from start and
  hang otherwise. The same holds for WallPaints.Place.
- FloorTiles.Place: requires a whole number of units between the corners
  of a multi-cell selection (`Aligned`), for the same reason. The same
  holds for FloorTiles.IsValidLocation above the ground floor.
- FloorTiles.Place: requires that the template is not itself registered
  as a tile (`CanCopy`). Copies get fresh ids, so destroying a replaced
  tile never removes the template.
- WallObjects.Place: requires that the wall at the slot is still an
  object of the scene (`WallLive`). WallPaints.Place requires the same
  of every recorded wall (`AllWallsLive`). The source reads these walls'
  components.
- WallObjects.PickUp: requires, like WallObjects.Place, that a wall
  recorded at the slot is still an object of the scene (`WallLive`). A
  record that still names a destroyed wall makes the source throw on
  the wall's transform; that case is not modelled.
- CommonObjects.PickUpFrom: requires the component to have a
  MeshRenderer (`mesh.Some?`). Without one, `CalculateBlockOffsets`
  throws a NullReferenceException on `mesh.bounds`
  (PlaceableObject.cs:78-79), after the footprint has been cleared. The
  throw is not modelled.
- CommonObjects.PickUpAsWritten: the same `mesh.Some?` requirement as
  CommonObjects.PickUpFrom.
- CommonObjects.PickUp: the same `mesh.Some?` requirement as
  CommonObjects.PickUpFrom.
- Placeables.PlaceableObject.CalculateBlockOffsets: requires
  `mesh.Some?`. Without a MeshRenderer the source throws on
  `mesh.bounds` (PlaceableObject.cs:78-79); the throw is not modelled.
- Placeables.PlaceableObject.Rotate: requires `mesh.Some?`. Without a
  MeshRenderer the source turns the object and then throws in
  `CalculateBlockOffsets`; the throw is not modelled.
- Scenes.Scene.Instantiate: copies one object. Unity's Instantiate also
  copies the object's children, and the model does not.
- Scenes.Scene.Destroy: removes one object. Unity's Destroy also
  destroys the object's children, and the model does not.
- Placeables.MakeCopy: the copy is made without the template's
  children, for the same reason. Moving a wall that carries a door
  therefore gives a copy without the door. `WallObjects.ValidSpot`
  then accepts a second door on the new wall, which the source refuses.
- Deselected: destroys the selected object alone. When the selection
  is a wall being moved with a door on it, the door stays in the scene
  with a parent id that no longer exists, where the source destroys it
  with the wall.
- DeselectObject: the same as Deselected; the selected object's
  children are not destroyed.
- BuilderControls.Release: takes as a requirement (`Ready`) the
  preconditions above for the selected kind.
- Integer widths do not matter here: coordinates stay within the map
  bounds, and the model uses unbounded integers.

## Findings

| source | as written | input that shows it | evidently intended | confidence | as-written member | corrected member |
|---|---|---|---|---|---|---|
| Assets/BuilderKit/Scripts/CommonObject.cs:37 | the pick-up base is built with height 0, while `BlockManager.PutObject` recorded the object around a base at its own height | place a 1×1 chair on floor 1 (y = 1), then pick it up: the record at y = 1 still holds the chair, and the record at y = 0 is cleared instead | use the object's own height, the base `PutObject` used (BlockManager.cs:153) | not executed | CommonObjects.PickUpAsWritten, CommonObjects.UpperFloorPickUpLeavesObject | CommonObjects.PickUp, CommonObjects.PlaceThenPickUpRestores |
| Assets/BuilderKit/Scripts/BuilderController.cs:186 | `GoUp` compares with the configured NUMBER_OF_FLOORS, not with the floors that exist | `Reset(2)`, reached by loading a save with two floors (Save.cs:29), then `GoUp` twice: the second call sets the active floor to 2, and indexing `buildingFloors[2]` raises. Every later `GoDown` raises on the same index without moving | guard on the length of the floor array | not executed | BuilderControls.GoUpAsWrittenStep, BuilderControls.GoUpAsWrittenStrands | BuilderControls.GoUpStep, BuilderControls.FloorStepsStayInRange |
