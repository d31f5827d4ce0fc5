/**
 * BuildingFloorManager.cs: one container object per floor, a temporary
 * holder for objects being moved, and the index of the active floor.
 * Placed objects are owned by the container they are parented under.
 */
module Floors {
  import opened Wrappers
  import opened Grid
  import opened Occupancy
  import opened Scenes

  /** The floor containers created by AddFloors: ids first, first + 1, ... placed at heights 0, 1, ... */
  function NewFloors(objs: Objects, first: ObjId, n: nat): (r: Objects)
    ensures forall id :: id in r <==> id in objs || first <= id < first + n
  {
    if n == 0 then objs
    else NewFloors(objs, first, n - 1)[first + n - 1 := EmptyObject(Pos(0, n - 1, 0))]
  }

  lemma {:induction false} NewFloorsAt(objs: Objects, first: ObjId, n: nat, id: ObjId)
    ensures id in NewFloors(objs, first, n) && first <= id < first + n ==>
      NewFloors(objs, first, n)[id] == EmptyObject(Pos(0, id - first, 0))
    ensures id in objs && !(first <= id < first + n) ==> NewFloors(objs, first, n)[id] == objs[id]
  {
    if n > 0 {
      NewFloorsAt(objs, first, n - 1, id);
    }
  }

  /** The scene objects Reset finds and destroys: floors that are still present and active. */
  function FoundFloors(objs: Objects, floors: seq<ObjId>): set<ObjId> {
    set i | 0 <= i < |floors| && floors[i] in objs && objs[floors[i]].active :: floors[i]
  }

  class BuildingFloorManager {
    var activeFloor: int
    var buildingFloors: array<ObjId>
    var tempFloor: ObjId

    /**
     * The floor containers are distinct scene objects, none of them the temp
     * holder, and every floor at or below the active one is active.
     */
    ghost predicate Valid(scene: Scene)
      reads this, buildingFloors, scene
    {
      && tempFloor < scene.nextId
      && (forall i, j | 0 <= i < j < buildingFloors.Length :: buildingFloors[i] != buildingFloors[j])
      && (forall i | 0 <= i < buildingFloors.Length :: buildingFloors[i] in scene.objects && buildingFloors[i] != tempFloor)
      && FloorsActive(scene.objects)
    }

    /** Every floor container at or below the active floor is active. */
    ghost predicate FloorsActive(objs: Objects)
      reads this, buildingFloors
    {
      forall i | 0 <= i < buildingFloors.Length && i <= activeFloor ::
        buildingFloors[i] in objs && objs[buildingFloors[i]].active
    }

    /**
     * The constructor: NUMBER_OF_FLOORS active floor containers and one
     * temp holder, created in that order; the active floor is 0.
     */
    constructor(scene: Scene)
      requires scene.Valid()
      modifies scene
      ensures scene.Valid() && Valid(scene)
      ensures activeFloor == 0 && buildingFloors.Length == NUMBER_OF_FLOORS && fresh(buildingFloors)
      ensures forall i | 0 <= i < NUMBER_OF_FLOORS :: buildingFloors[i] == old(scene.nextId) + i
      ensures tempFloor == old(scene.nextId) + NUMBER_OF_FLOORS
      ensures scene.objects == NewFloors(old(scene.objects), old(scene.nextId), NUMBER_OF_FLOORS)
                                 [tempFloor := EmptyObject(Pos(0, -1, 0))]
    {
      activeFloor := 0;
      buildingFloors := new ObjId[0];
      tempFloor := 0;
      new;
      AddFloors(scene, NUMBER_OF_FLOORS);
      tempFloor := scene.CreateObject(Pos(0, -1, 0));
      forall i | 0 <= i < NUMBER_OF_FLOORS
        ensures buildingFloors[i] in scene.objects && scene.objects[buildingFloors[i]].active
      {
        NewFloorsAt(old(scene.objects), old(scene.nextId), NUMBER_OF_FLOORS, buildingFloors[i]);
      }
    }

    /**
     * AddFloors: a new array of exactly the requested length whose entries
     * are new, active floor containers.
     */
    method AddFloors(scene: Scene, numberOfFloors: nat)
      requires scene.Valid()
      modifies this, scene
      ensures scene.Valid()
      ensures fresh(buildingFloors) && buildingFloors.Length == numberOfFloors
      ensures activeFloor == old(activeFloor) && tempFloor == old(tempFloor)
      ensures forall i | 0 <= i < numberOfFloors :: buildingFloors[i] == old(scene.nextId) + i
      ensures scene.nextId == old(scene.nextId) + numberOfFloors
      ensures scene.objects == NewFloors(old(scene.objects), old(scene.nextId), numberOfFloors)
    {
      var floors := new ObjId[numberOfFloors];
      var i := 0;
      while i < numberOfFloors
        invariant 0 <= i <= numberOfFloors
        invariant scene.Valid() && scene.nextId == old(scene.nextId) + i
        invariant activeFloor == old(activeFloor) && tempFloor == old(tempFloor)
        invariant forall k | 0 <= k < i :: floors[k] == old(scene.nextId) + k
        invariant scene.objects == NewFloors(old(scene.objects), old(scene.nextId), i)
      {
        var floor := scene.CreateObject(Pos(0, i, 0));
        floors[i] := floor;
        i := i + 1;
      }
      buildingFloors := floors;
    }

    /**
     * Reset: destroys the old floor containers that GameObject.Find can
     * still see (present and active), creates the requested number of new
     * ones and goes back to floor 0.
     */
    method Reset(scene: Scene, numberOfFloors: nat)
      requires scene.Valid() && Valid(scene)
      modifies this, scene
      ensures scene.Valid() && Valid(scene)
      ensures activeFloor == 0 && buildingFloors.Length == numberOfFloors
      ensures forall i | 0 <= i < numberOfFloors :: buildingFloors[i] == old(scene.nextId) + i
      ensures scene.objects == NewFloors(old(scene.objects) - FoundFloors(old(scene.objects), old(buildingFloors[..])),
                                         old(scene.nextId), numberOfFloors)
      ensures tempFloor == old(tempFloor)
    {
      var i := 0;
      ghost var oldFloors := buildingFloors[..];
      while i < buildingFloors.Length
        invariant 0 <= i <= buildingFloors.Length
        invariant scene.Valid() && scene.nextId == old(scene.nextId)
        invariant buildingFloors[..] == oldFloors && tempFloor == old(tempFloor)
        invariant scene.objects == old(scene.objects) - FoundFloors(old(scene.objects), oldFloors[..i])
      {
        var floor := buildingFloors[i];
        if floor in scene.objects && scene.objects[floor].active {
          scene.Destroy(floor);
        }
        assert oldFloors[..i + 1] == oldFloors[..i] + [floor];
        i := i + 1;
      }
      assert oldFloors[..i] == oldFloors;
      AddFloors(scene, numberOfFloors);
      activeFloor := 0;
      forall k | 0 <= k < numberOfFloors
        ensures buildingFloors[k] in scene.objects && scene.objects[buildingFloors[k]].active
      {
        NewFloorsAt(old(scene.objects) - FoundFloors(old(scene.objects), oldFloors), old(scene.nextId), numberOfFloors, buildingFloors[k]);
      }
    }

    /**
     * GoDown: deactivates the active floor's container, then steps down.
     * An index outside the array raises before anything changes.
     */
    method GoDown(scene: Scene) returns (ok: bool)
      requires scene.Valid() && Valid(scene)
      modifies this, scene
      ensures scene.Valid() && Valid(scene)
      ensures buildingFloors == old(buildingFloors) && tempFloor == old(tempFloor)
      ensures ok <==> 0 <= old(activeFloor) < buildingFloors.Length
      ensures ok ==> (activeFloor == old(activeFloor) - 1
        && scene.objects == old(scene.objects)[buildingFloors[old(activeFloor)] :=
             old(scene.objects)[buildingFloors[old(activeFloor)]].(active := false)])
      ensures !ok ==> activeFloor == old(activeFloor) && scene.objects == old(scene.objects)
    {
      if 0 <= activeFloor < buildingFloors.Length {
        scene.SetActive(buildingFloors[activeFloor], false);
        activeFloor := activeFloor - 1;
        ok := true;
      } else {
        ok := false;
      }
    }

    /**
     * GoUp: steps up, then activates the container of the floor entered. An
     * index outside the array raises after the step.
     */
    method GoUp(scene: Scene) returns (ok: bool)
      requires scene.Valid() && Valid(scene)
      modifies this, scene
      ensures scene.Valid() && Valid(scene)
      ensures buildingFloors == old(buildingFloors) && tempFloor == old(tempFloor)
      ensures activeFloor == old(activeFloor) + 1
      ensures ok <==> 0 <= activeFloor < buildingFloors.Length
      ensures ok ==> scene.objects == old(scene.objects)[buildingFloors[activeFloor] :=
                       old(scene.objects)[buildingFloors[activeFloor]].(active := true)]
      ensures !ok ==> scene.objects == old(scene.objects)
    {
      activeFloor := activeFloor + 1;
      if 0 <= activeFloor < buildingFloors.Length {
        scene.SetActive(buildingFloors[activeFloor], true);
        ok := true;
      } else {
        ok := false;
      }
    }

    /**
     * The container buildingFloors[activeFloor], or None when the active
     * floor is outside the array and indexing it raises.
     */
    function Container(): (r: Option<ObjId>)
      reads this, buildingFloors
      ensures r.Some? <==> 0 <= activeFloor < buildingFloors.Length
      ensures r.Some? ==> r.value == buildingFloors[activeFloor]
    {
      if 0 <= activeFloor < buildingFloors.Length then Some(buildingFloors[activeFloor]) else None
    }

    /**
     * AssignToCurrentFloor: the object is parented under the active floor's
     * container. When the active floor is outside the array the index
     * raises: ok is false and the object keeps its parent.
     */
    method AssignToCurrentFloor(scene: Scene, obj: ObjId) returns (ok: bool)
      requires scene.Valid() && obj in scene.objects
      modifies scene
      ensures scene.Valid() && scene.nextId == old(scene.nextId)
      ensures ok <==> 0 <= activeFloor < buildingFloors.Length
      ensures ok ==> scene.objects == old(scene.objects)[obj := old(scene.objects)[obj].(parent := Some(buildingFloors[activeFloor]))]
      ensures !ok ==> scene.objects == old(scene.objects)
    {
      if 0 <= activeFloor < buildingFloors.Length {
        scene.SetParent(obj, Some(buildingFloors[activeFloor]));
        ok := true;
      } else {
        ok := false;
      }
    }

    /** AssignToTempFloor: the object is parented under the temp holder. */
    method AssignToTempFloor(scene: Scene, obj: ObjId)
      requires scene.Valid() && obj in scene.objects
      modifies scene
      ensures scene.Valid() && scene.nextId == old(scene.nextId)
      ensures scene.objects == old(scene.objects)[obj := old(scene.objects)[obj].(parent := Some(tempFloor))]
    {
      scene.SetParent(obj, Some(tempFloor));
    }
  }
}
