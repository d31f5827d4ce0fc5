/**
 * The engine side of the model: scene objects as ids with a transform
 * (parent, position, yaw), an active flag, a MeshFilter mesh and Renderer
 * materials. GameObject.Instantiate, Destroy, Transform.SetParent,
 * Transform.DetachChildren and GameObject.SetActive are the operations the
 * core calls.
 */
module Scenes {
  import opened Wrappers
  import opened Grid
  import opened Occupancy

  /** Opaque mesh and material handles. */
  type MeshId = nat
  type MaterialId = nat

  /**
   * One scene object. allowPainting is the Wall component's flag, kept with
   * the object because other objects read it through the block store.
   */
  datatype GameObj = GameObj(
    parent: Option<ObjId>,
    active: bool,
    position: Pos,
    yaw: Yaw,
    mesh: Option<MeshId>,
    materials: seq<MaterialId>,
    allowPainting: bool)

  /** `new GameObject(...)`: an empty, active, unparented object. */
  function EmptyObject(position: Pos): GameObj {
    GameObj(None, true, position, 0, None, [], false)
  }

  type Objects = map<ObjId, GameObj>

  /** The ids whose parent is `id`: Transform.childCount is the size of this set. */
  function Children(objs: Objects, id: ObjId): set<ObjId> {
    set c | c in objs && objs[c].parent == Some(id)
  }

  /** Transform.DetachChildren of `id`. */
  function Detached(objs: Objects, id: ObjId): (r: Objects)
    ensures r.Keys == objs.Keys
    ensures Children(r, id) == {}
  {
    map c | c in objs :: if objs[c].parent == Some(id) then objs[c].(parent := None) else objs[c]
  }

  class Scene {
    var objects: Objects
    var nextId: ObjId

    /** Ids are handed out in increasing order, so a new id is never in use. */
    ghost predicate Valid()
      reads this
    {
      forall id | id in objects :: id < nextId
    }

    constructor()
      ensures Valid() && objects == map[] && nextId == 0
    {
      objects := map[];
      nextId := 0;
    }

    /** `new GameObject(name)` placed at `position`. */
    method CreateObject(position: Pos) returns (id: ObjId)
      requires Valid()
      modifies this
      ensures Valid()
      ensures id == old(nextId) && nextId == id + 1
      ensures objects == old(objects)[id := EmptyObject(position)]
    {
      id := nextId;
      objects := objects[id := EmptyObject(position)];
      nextId := nextId + 1;
    }

    /** GameObject.Instantiate(original): a copy of the object, without a parent. */
    method Instantiate(original: ObjId) returns (id: ObjId)
      requires Valid() && original in objects
      modifies this
      ensures Valid()
      ensures id == old(nextId) && nextId == id + 1 && id !in old(objects)
      ensures objects == old(objects)[id := old(objects)[original].(parent := None)]
    {
      id := nextId;
      objects := objects[id := objects[original].(parent := None)];
      nextId := nextId + 1;
    }

    /** GameObject.Destroy; destroying an object that is already gone does nothing. */
    method Destroy(id: ObjId)
      requires Valid()
      modifies this
      ensures Valid() && nextId == old(nextId)
      ensures objects == old(objects) - {id}
    {
      objects := objects - {id};
    }

    /** Transform.SetParent (the world position is kept). */
    method SetParent(child: ObjId, parent: Option<ObjId>)
      requires Valid() && child in objects
      modifies this
      ensures Valid() && nextId == old(nextId)
      ensures objects == old(objects)[child := old(objects)[child].(parent := parent)]
    {
      objects := objects[child := objects[child].(parent := parent)];
    }

    /** Transform.position assignment. */
    method SetPosition(id: ObjId, position: Pos)
      requires Valid() && id in objects
      modifies this
      ensures Valid() && nextId == old(nextId)
      ensures objects == old(objects)[id := old(objects)[id].(position := position)]
    {
      objects := objects[id := objects[id].(position := position)];
    }

    /** Setting the transform's rotation about the vertical axis. */
    method SetYaw(id: ObjId, yaw: Yaw)
      requires Valid() && id in objects
      modifies this
      ensures Valid() && nextId == old(nextId)
      ensures objects == old(objects)[id := old(objects)[id].(yaw := yaw)]
    {
      objects := objects[id := objects[id].(yaw := yaw)];
    }

    /** MeshFilter.mesh assignment. */
    method SetMesh(id: ObjId, mesh: Option<MeshId>)
      requires Valid() && id in objects
      modifies this
      ensures Valid() && nextId == old(nextId)
      ensures objects == old(objects)[id := old(objects)[id].(mesh := mesh)]
    {
      objects := objects[id := objects[id].(mesh := mesh)];
    }

    /** Renderer.materials assignment. */
    method SetMaterials(id: ObjId, materials: seq<MaterialId>)
      requires Valid() && id in objects
      modifies this
      ensures Valid() && nextId == old(nextId)
      ensures objects == old(objects)[id := old(objects)[id].(materials := materials)]
    {
      objects := objects[id := objects[id].(materials := materials)];
    }

    /** GameObject.SetActive */
    method SetActive(id: ObjId, active: bool)
      requires Valid() && id in objects
      modifies this
      ensures Valid() && nextId == old(nextId)
      ensures objects == old(objects)[id := old(objects)[id].(active := active)]
    {
      objects := objects[id := objects[id].(active := active)];
    }

    /** Transform.DetachChildren */
    method DetachChildren(id: ObjId)
      requires Valid()
      modifies this
      ensures Valid() && nextId == old(nextId)
      ensures objects == Detached(old(objects), id)
    {
      objects := Detached(objects, id);
    }
  }
}
