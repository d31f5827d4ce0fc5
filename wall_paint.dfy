/**
 * WallPaint.cs: paint puts nothing in the scene; it replaces one material
 * slot of the walls it is dragged over, the inside or the outside face
 * depending on how the paint is turned.
 */
module WallPaints {
  import opened Wrappers
  import opened Grid
  import opened Occupancy
  import opened Scenes
  import opened BlockStore
  import opened Placeables
  import opened Walls

  /** Every wall recorded in the store is an object of the scene (the source reads their renderers). */
  predicate AllWallsLive(s: Store, objs: Objects) {
    forall k | k in s && s[k].wall.Some? :: s[k].wall.value in objs
  }

  /**
   * WallPaint's line loops step one unit at a time from start until they
   * meet end on the axis the line runs along, so they stop when the two
   * differ by a whole number of units there.
   */
  predicate LineReachesEnd(start: Pos, end: Pos) {
    start == end || !Straight(start, end) ||
    (if start.x == end.x then IsWhole(end.z - start.z) else IsWhole(end.x - start.x))
  }

  /** WallPaint.IsValidBlock: a record holding a wall that allows painting. */
  predicate IsValidBlock(s: Store, objs: Objects, k: Pos) {
    k in s && s[k].wall.Some? && s[k].wall.value in objs && objs[s[k].wall.value].allowPainting
  }

  /**
   * WallPaint.IsValidLocation: a single cell must hold a paintable wall; a
   * diagonal drag is refused; along a line the loop tests the wall at end
   * (not the cell it has reached) once per step, so a line along y only,
   * which takes no step, is always accepted.
   */
  predicate ValidPaintLocation(s: Store, objs: Objects, yaw: Yaw, start: Pos, end: Pos) {
    if start == end then IsValidBlock(s, objs, WallPosition(end, yaw))
    else if !Straight(start, end) then false
    else (start.x == end.x && start.z == end.z) || IsValidBlock(s, objs, WallPosition(end, yaw))
  }

  /**
   * The material slot WallPaint.Paint replaces: the only one of a one-sided
   * wall, else the inside (0) when paint and wall face the same way and the
   * outside (1) otherwise.
   */
  function PaintSlot(count: nat, paintYaw: Yaw, wallYaw: Yaw): nat {
    if count == 1 then 0 else if paintYaw == wallYaw then 0 else 1
  }

  /**
   * WallPaint.Paint on the scene: None where the source throws (no record
   * at the wall position, or a wall with no materials), the scene
   * unchanged when the record holds no wall, and otherwise the wall's
   * material in the chosen slot replaced.
   */
  function PaintSpec(objs: Objects, s: Store, paintYaw: Yaw, material: MaterialId, p: Pos): (r: Option<Objects>)
    requires AllWallsLive(s, objs)
    ensures r.Some? ==> r.value.Keys == objs.Keys && AllWallsLive(s, r.value)
  {
    var k := WallPosition(p, paintYaw);
    if k !in s then None
    else if s[k].wall.None? then Some(objs)
    else
      var wall := s[k].wall.value;
      var m := objs[wall].materials;
      if |m| == 0 then None
      else Some(objs[wall := objs[wall].(materials := m[PaintSlot(|m|, paintYaw, objs[wall].yaw) := material])])
  }

  /** Paint at each cell in order, stopping at the first that throws; ok is false then. */
  function PaintAll(objs: Objects, s: Store, paintYaw: Yaw, material: MaterialId, cells: seq<Pos>): (r: (Objects, bool))
    requires AllWallsLive(s, objs)
    ensures AllWallsLive(s, r.0)
    decreases |cells|
  {
    if cells == [] then (objs, true)
    else match PaintSpec(objs, s, paintYaw, material, cells[0])
      case None => (objs, false)
      case Some(o) => PaintAll(o, s, paintYaw, material, cells[1..])
  }

  /**
   * WallPaint.Place on the scene: nothing unless the location is valid; a
   * single cell is painted unless the modifier is held; a line is painted
   * at every cell from start to end inclusive, along z when x agrees.
   */
  function PlaceSpec(objs: Objects, s: Store, paintYaw: Yaw, material: MaterialId, start: Pos, end: Pos, modifier: bool): (Objects, bool)
    requires AllWallsLive(s, objs) && LineReachesEnd(start, end)
  {
    if !ValidPaintLocation(s, objs, paintYaw, start, end) then (objs, true)
    else if start == end then
      if modifier then (objs, true)
      else match PaintSpec(objs, s, paintYaw, material, end)
        case None => (objs, false)
        case Some(o) => (o, true)
    else if start.x == end.x then PaintAll(objs, s, paintYaw, material, RunZ(start, end.z))
    else PaintAll(objs, s, paintYaw, material, RunX(start, end.x))
  }

  // ---------------------------------------------------------------------
  // Properties

  /**
   * Painting changes one material of one wall and nothing else: the slot
   * chosen by PaintSlot, which is always a slot the wall has.
   */
  lemma PaintChangesOneSlot(objs: Objects, s: Store, paintYaw: Yaw, material: MaterialId, p: Pos)
    requires AllWallsLive(s, objs)
    requires PaintSpec(objs, s, paintYaw, material, p).Some?
    ensures var k := WallPosition(p, paintYaw);
      var o := PaintSpec(objs, s, paintYaw, material, p).value;
      && (s[k].wall.None? ==> o == objs)
      && (s[k].wall.Some? ==>
            var wall := s[k].wall.value;
            var m := objs[wall].materials;
            var slot := PaintSlot(|m|, paintYaw, objs[wall].yaw);
            && slot < |m|
            && o[wall].materials[slot] == material
            && |o[wall].materials| == |m|
            && (forall j | 0 <= j < |m| && j != slot :: o[wall].materials[j] == m[j])
            && o[wall] == objs[wall].(materials := o[wall].materials)
            && (forall c | c in objs && c != wall :: o[c] == objs[c]))
  {
  }

  /** Painting the same cell twice with the same paint is the same as painting it once. */
  lemma PaintIdempotent(objs: Objects, s: Store, paintYaw: Yaw, material: MaterialId, p: Pos)
    requires AllWallsLive(s, objs)
    requires PaintSpec(objs, s, paintYaw, material, p).Some?
    ensures var o := PaintSpec(objs, s, paintYaw, material, p).value;
      PaintSpec(o, s, paintYaw, material, p) == Some(o)
  {
    var k := WallPosition(p, paintYaw);
    if s[k].wall.Some? {
      var wall := s[k].wall.value;
      var m := objs[wall].materials;
      var slot := PaintSlot(|m|, paintYaw, objs[wall].yaw);
      var painted: seq<MaterialId> := m[slot := material];
      var o := objs[wall := objs[wall].(materials := painted)];
      assert o[wall].yaw == objs[wall].yaw && |o[wall].materials| == |m| > 0;
      assert painted[slot := material] == painted;
      assert o[wall := o[wall].(materials := painted)] == o;
    }
  }

  /**
   * A line is painted all the way when every cell's wall position has a
   * record and every wall on it has at least one material.
   */
  lemma {:induction false} PaintAllSucceeds(objs: Objects, s: Store, paintYaw: Yaw, material: MaterialId, cells: seq<Pos>)
    requires AllWallsLive(s, objs)
    requires forall i | 0 <= i < |cells| :: WallPosition(cells[i], paintYaw) in s
    requires forall k | k in s && s[k].wall.Some? :: |objs[s[k].wall.value].materials| > 0
    ensures PaintAll(objs, s, paintYaw, material, cells).1
    decreases |cells|
  {
    if cells != [] {
      var o := PaintSpec(objs, s, paintYaw, material, cells[0]);
      assert o.Some?;
      forall k | k in s && s[k].wall.Some?
        ensures |o.value[s[k].wall.value].materials| > 0
      {
        PaintChangesOneSlot(objs, s, paintYaw, material, cells[0]);
      }
      forall i | 0 <= i < |cells[1..]|
        ensures WallPosition(cells[1..][i], paintYaw) in s
      {
        assert cells[1..][i] == cells[i + 1];
      }
      PaintAllSucceeds(o.value, s, paintYaw, material, cells[1..]);
    }
  }

  /** Along a line that moves in x or z, validity is decided by the wall at end alone. */
  lemma LineValidityTestsEndOnly(s: Store, objs: Objects, yaw: Yaw, start: Pos, end: Pos)
    requires Straight(start, end) && (start.x != end.x || start.z != end.z)
    ensures ValidPaintLocation(s, objs, yaw, start, end) <==> IsValidBlock(s, objs, WallPosition(end, yaw))
  {
  }

  lemma PaintAllCons(objs: Objects, s: Store, paintYaw: Yaw, material: MaterialId, c: Pos, rest: seq<Pos>)
    requires AllWallsLive(s, objs)
    ensures PaintAll(objs, s, paintYaw, material, [c] + rest) ==
      match PaintSpec(objs, s, paintYaw, material, c)
        case None => (objs, false)
        case Some(o) => PaintAll(o, s, paintYaw, material, rest)
  {
    assert ([c] + rest)[0] == c && ([c] + rest)[1..] == rest;
  }

  // ---------------------------------------------------------------------
  // Methods

  /** WallPaint.IsValidBlock, on the record at k. */
  function ValidBlockAt(bm: BlockManager, scene: Scene, k: Pos): (r: bool)
    reads bm, bm.blocks.Values, scene
    requires bm.Valid()
    ensures r == IsValidBlock(bm.Cells(), scene.objects, k)
  {
    var block := bm.Lookup(k);
    block != null && block.wall.Some? && block.wall.value in scene.objects && scene.objects[block.wall.value].allowPainting
  }

  /**
   * One loop of WallPaint.IsValidLocation: a step of one unit at a time
   * from a to b, testing the record at k (the wall at end) at each step.
   */
  method ScanLine(bm: BlockManager, scene: Scene, k: Pos, a: int, b: int) returns (isValid: bool)
    requires bm.Valid() && IsWhole(b - a)
    ensures isValid == (a == b || IsValidBlock(bm.Cells(), scene.objects, k))
  {
    isValid := true;
    var current := a;
    var increment := if a < b then UNIT else -UNIT;
    while current != b
      invariant IsWhole(b - current)
      invariant if increment == UNIT then current <= b else current >= b
      invariant current != a ==> IsValidBlock(bm.Cells(), scene.objects, k)
      decreases Abs(b - current)
    {
      if !ValidBlockAt(bm, scene, k) {
        return false;
      }
      current := current + increment;
    }
  }

  /** WallPaint.IsValidLocation. */
  method IsValidLocation(paint: PlaceableObject, bm: BlockManager, scene: Scene, start: Pos, end: Pos) returns (isValid: bool)
    requires bm.Valid() && paint.gameObject in scene.objects && LineReachesEnd(start, end)
    ensures isValid == ValidPaintLocation(bm.Cells(), scene.objects, scene.objects[paint.gameObject].yaw, start, end)
  {
    var yaw := scene.objects[paint.gameObject].yaw;
    var k := WallPosition(end, yaw);
    ghost var valid := ValidPaintLocation(bm.Cells(), scene.objects, yaw, start, end);
    if start == end {
      isValid := ValidBlockAt(bm, scene, k);
    } else if start.x != end.x && start.z != end.z {
      assert !Straight(start, end);
      isValid := false;
    } else if start.x == end.x {
      assert IsWhole(end.z - start.z);
      isValid := ScanLine(bm, scene, k, start.z, end.z);
      assert valid == (start.z == end.z || IsValidBlock(bm.Cells(), scene.objects, k));
    } else {
      assert IsWhole(end.x - start.x);
      isValid := ScanLine(bm, scene, k, start.x, end.x);
      assert valid == IsValidBlock(bm.Cells(), scene.objects, k);
    }
  }

  /** WallPaint.Paint: ok is false where the source throws, and then nothing changes. */
  method Paint(paint: PlaceableObject, bm: BlockManager, scene: Scene, p: Pos) returns (ok: bool)
    requires bm.Valid() && scene.Valid() && paint.gameObject in scene.objects
    requires AllWallsLive(bm.Cells(), scene.objects)
    modifies scene
    ensures scene.Valid() && scene.nextId == old(scene.nextId)
    ensures var r := PaintSpec(old(scene.objects), bm.Cells(), old(scene.objects[paint.gameObject].yaw), paint.paintMaterial, p);
      ok == r.Some? && scene.objects == if r.Some? then r.value else old(scene.objects)
  {
    var paintYaw := scene.objects[paint.gameObject].yaw;
    var block := bm.Lookup(WallPosition(p, paintYaw));
    if block == null {
      return false;
    }
    ok := true;
    if block.wall.Some? {
      var wall := block.wall.value;
      var wallMaterials := scene.objects[wall].materials;
      if |wallMaterials| == 0 {
        return false;
      }
      var slot := PaintSlot(|wallMaterials|, paintYaw, scene.objects[wall].yaw);
      wallMaterials := wallMaterials[slot := paint.paintMaterial];
      scene.SetMaterials(wall, wallMaterials);
    }
  }

  /** The z line of WallPaint.Place: end pushed one unit further, then Paint at each cell up to it. */
  method PaintAlongZ(paint: PlaceableObject, bm: BlockManager, scene: Scene, start: Pos, end: Pos) returns (ok: bool)
    requires bm.Valid() && scene.Valid() && paint.gameObject in scene.objects
    requires AllWallsLive(bm.Cells(), scene.objects) && IsWhole(end.z - start.z)
    modifies scene
    ensures scene.Valid() && scene.nextId == old(scene.nextId)
    ensures (scene.objects, ok) ==
      PaintAll(old(scene.objects), bm.Cells(), old(scene.objects[paint.gameObject].yaw), paint.paintMaterial, RunZ(start, end.z))
  {
    ghost var yaw := scene.objects[paint.gameObject].yaw;
    ghost var final := PaintAll(scene.objects, bm.Cells(), yaw, paint.paintMaterial, RunZ(start, end.z));
    var stop := if start.z < end.z then end.z + UNIT else end.z - UNIT;
    var increment := if start.z < stop then UNIT else -UNIT;
    SteppingStart(start.z, end.z);
    var current := start;
    while current.z != stop
      invariant Stepping(current.z, end.z, stop, increment)
      invariant scene.Valid() && scene.nextId == old(scene.nextId) && paint.gameObject in scene.objects && scene.objects[paint.gameObject].yaw == yaw
      invariant AllWallsLive(bm.Cells(), scene.objects)
      invariant PaintAll(scene.objects, bm.Cells(), yaw, paint.paintMaterial, ZLeft(current, end.z, stop, increment)) == final
      decreases Abs(stop - current.z)
    {
      ZLeftNext(current, end.z, stop, increment);
      var next := Pos(current.x, current.y, current.z + increment);
      ok := PaintNext(paint, bm, scene, current, ZLeft(next, end.z, stop, increment), yaw, final);
      if !ok {
        return;
      }
      current := next;
    }
    ok := true;
  }

  /**
   * One iteration of Place's loops: Paint at the head c of the cells still
   * to paint, with what is then left of the line.
   */
  method PaintNext(paint: PlaceableObject, bm: BlockManager, scene: Scene, c: Pos, rest: seq<Pos>,
                   ghost yaw: Yaw, ghost final: (Objects, bool)) returns (ok: bool)
    requires bm.Valid() && scene.Valid() && paint.gameObject in scene.objects && scene.objects[paint.gameObject].yaw == yaw
    requires AllWallsLive(bm.Cells(), scene.objects)
    requires PaintAll(scene.objects, bm.Cells(), yaw, paint.paintMaterial, [c] + rest) == final
    modifies scene
    ensures scene.Valid() && scene.nextId == old(scene.nextId)
    ensures paint.gameObject in scene.objects && scene.objects[paint.gameObject].yaw == yaw
    ensures AllWallsLive(bm.Cells(), scene.objects)
    ensures !ok ==> (scene.objects, false) == final
    ensures ok ==> PaintAll(scene.objects, bm.Cells(), yaw, paint.paintMaterial, rest) == final
  {
    PaintAllCons(scene.objects, bm.Cells(), yaw, paint.paintMaterial, c, rest);
    ok := Paint(paint, bm, scene, c);
  }

  /** The x line of WallPaint.Place. */
  method PaintAlongX(paint: PlaceableObject, bm: BlockManager, scene: Scene, start: Pos, end: Pos) returns (ok: bool)
    requires bm.Valid() && scene.Valid() && paint.gameObject in scene.objects
    requires AllWallsLive(bm.Cells(), scene.objects) && IsWhole(end.x - start.x)
    modifies scene
    ensures scene.Valid() && scene.nextId == old(scene.nextId)
    ensures (scene.objects, ok) ==
      PaintAll(old(scene.objects), bm.Cells(), old(scene.objects[paint.gameObject].yaw), paint.paintMaterial, RunX(start, end.x))
  {
    ghost var yaw := scene.objects[paint.gameObject].yaw;
    ghost var final := PaintAll(scene.objects, bm.Cells(), yaw, paint.paintMaterial, RunX(start, end.x));
    var stop := if start.x < end.x then end.x + UNIT else end.x - UNIT;
    var increment := if start.x < stop then UNIT else -UNIT;
    SteppingStart(start.x, end.x);
    var current := start;
    while current.x != stop
      invariant Stepping(current.x, end.x, stop, increment)
      invariant scene.Valid() && scene.nextId == old(scene.nextId) && paint.gameObject in scene.objects && scene.objects[paint.gameObject].yaw == yaw
      invariant AllWallsLive(bm.Cells(), scene.objects)
      invariant PaintAll(scene.objects, bm.Cells(), yaw, paint.paintMaterial, XLeft(current, end.x, stop, increment)) == final
      decreases Abs(stop - current.x)
    {
      XLeftNext(current, end.x, stop, increment);
      var next := Pos(current.x + increment, current.y, current.z);
      ok := PaintNext(paint, bm, scene, current, XLeft(next, end.x, stop, increment), yaw, final);
      if !ok {
        return;
      }
      current := next;
    }
    ok := true;
  }

  /**
   * WallPaint.Place: the list it returns is always empty; ok is false when
   * a Paint call threw, with the walls painted before it kept.
   */
  method Place(paint: PlaceableObject, bm: BlockManager, scene: Scene, start: Pos, end: Pos, modifier: bool)
    returns (paintedItems: seq<ObjId>, ok: bool)
    requires bm.Valid() && scene.Valid() && paint.gameObject in scene.objects
    requires AllWallsLive(bm.Cells(), scene.objects) && LineReachesEnd(start, end)
    modifies scene
    ensures scene.Valid() && scene.nextId == old(scene.nextId) && paintedItems == []
    ensures (scene.objects, ok) ==
      PlaceSpec(old(scene.objects), bm.Cells(), old(scene.objects[paint.gameObject].yaw), paint.paintMaterial, start, end, modifier)
  {
    paintedItems := [];
    ok := true;
    var valid := IsValidLocation(paint, bm, scene, start, end);
    if valid {
      ok := PaintSelection(paint, bm, scene, start, end, modifier);
    }
  }

  /** The painting part of WallPaint.Place, once the location is known to be valid. */
  method PaintSelection(paint: PlaceableObject, bm: BlockManager, scene: Scene, start: Pos, end: Pos, modifier: bool)
    returns (ok: bool)
    requires bm.Valid() && scene.Valid() && paint.gameObject in scene.objects
    requires AllWallsLive(bm.Cells(), scene.objects) && LineReachesEnd(start, end)
    requires ValidPaintLocation(bm.Cells(), scene.objects, scene.objects[paint.gameObject].yaw, start, end)
    modifies scene
    ensures scene.Valid() && scene.nextId == old(scene.nextId)
    ensures (scene.objects, ok) ==
      PlaceSpec(old(scene.objects), bm.Cells(), old(scene.objects[paint.gameObject].yaw), paint.paintMaterial, start, end, modifier)
  {
    ghost var objs, s, yaw := scene.objects, bm.Cells(), scene.objects[paint.gameObject].yaw;
    ghost var spec := PlaceSpec(objs, s, yaw, paint.paintMaterial, start, end, modifier);
    ok := true;
    if start == end {
      if !modifier {
        assert spec == match PaintSpec(objs, s, yaw, paint.paintMaterial, end)
          case None => (objs, false)
          case Some(o) => (o, true);
        ok := Paint(paint, bm, scene, end);
      }
    } else if start.x == end.x {
      assert spec == PaintAll(objs, s, yaw, paint.paintMaterial, RunZ(start, end.z));
      ok := PaintAlongZ(paint, bm, scene, start, end);
    } else {
      assert spec == PaintAll(objs, s, yaw, paint.paintMaterial, RunX(start, end.x));
      ok := PaintAlongX(paint, bm, scene, start, end);
    }
  }
}
