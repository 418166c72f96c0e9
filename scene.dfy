/** PrefabEntity.cpp: an entity that places a prefab in the scene. */
module Entities {
  import opened Values
  import opened Ids
  import opened Assets

  /** Ids of a list of entities, in list order. */
  function EntityIds(es: seq<PrefabEntity>): (r: seq<u32>)
    reads es
    ensures |r| == |es| && forall i :: 0 <= i < |es| ==> r[i] == es[i].id
  {
    if |es| == 0 then [] else EntityIds(es[..|es| - 1]) + [es[|es| - 1].id]
  }

  /** The id the next entity takes: the id rule applied to the scene's entity ids.
      While those ids are consecutive, it is the number of entities (modulo 2^32). */
  function NextEntityId(sceneEntities: seq<PrefabEntity>): (r: u32)
    reads sceneEntities
    ensures Consecutive(EntityIds(sceneEntities)) ==> r == |sceneEntities| % U32
  {
    var ids := EntityIds(sceneEntities);
    NextIdIsCount(ids); NextId(ids)
  }

  class PrefabEntity {
    // BaseEntity part
    var id: u32
    var kind: EntityKind
    var visible: bool
    var model: Matrix44
    /** None stands for the pointer the default constructor leaves unset. */
    var prefab: Option<Prefab>

    /** `PrefabEntity()`, with the scene's entity list passed in place of the singleton. */
    constructor Default(sceneEntities: seq<PrefabEntity>)
      ensures kind == PrefabKind && visible && model == Identity44
      ensures id == NextEntityId(sceneEntities)
      ensures prefab == None
    {
      kind := PrefabKind;
      visible := true;
      model := Identity44;
      id := NextEntityId(sceneEntities);
      prefab := None;
    }

    /** `PrefabEntity(p, model)`. */
    constructor (sceneEntities: seq<PrefabEntity>, p: Prefab, m: Matrix44)
      ensures kind == PrefabKind && visible && model == m
      ensures id == NextEntityId(sceneEntities)
      ensures GetPrefab() == Some(p)
    {
      kind := PrefabKind;
      visible := true;
      model := Identity44;
      model := m;
      id := NextEntityId(sceneEntities);
      prefab := Some(p);
    }

    function GetPrefab(): Option<Prefab> reads this { prefab }

    method SetPrefab(p: Prefab)
      modifies this`prefab
      ensures GetPrefab() == Some(p)
    {
      prefab := Some(p);
    }
  }
}

/** Scene.cpp: the ordered entity and light lists. */
module Scenes {
  import opened Values
  import opened Ids
  import opened Assets
  import opened Lights
  import opened Entities

  /** The floor material of `createFloor`. */
  function FloorMaterial(): (m: Material)
    ensures m.textureRep == 10.0 && m.metallicFactor == 1.0 && m.roughnessFactor == 1.0
    ensures m.color == Vec4(1.0, 1.0, 1.0, 1.0)
    ensures m.colorTexture == Some(TextureRef("data/textures/floor/Mud_Rocks_001_Color.tga"))
    ensures m.normalTexture == Some(TextureRef("data/textures/floor/Mud_Rocks_001_normal.tga"))
  {
    DefaultMaterial.(
      colorTexture := Some(TextureRef("data/textures/floor/Mud_Rocks_001_Color.tga")),
      normalTexture := Some(TextureRef("data/textures/floor/Mud_Rocks_001_normal.tga")),
      textureRep := 10.0,
      metallicFactor := 1.0,
      roughnessFactor := 1.0,
      color := Vec4(1.0, 1.0, 1.0, 1.0))
  }

  class Scene {
    var entities: seq<PrefabEntity>
    var lights: seq<Light>
    var ambientLight: real
    var background: Vec4

    constructor ()
      ensures entities == [] && lights == []
    {
      entities := [];
      lights := [];
    }

    /** Every entity id is its list position (modulo 2^32). */
    ghost predicate IdsConsecutive()
      reads this, entities
    {
      Consecutive(EntityIds(entities))
    }

    /** Every light id is its list position (modulo 2^32). */
    ghost predicate LightIdsConsecutive()
      reads this, lights
    {
      Consecutive(LightIds(lights))
    }

    /** Appends; an entity built from the current list (its id is NextEntityId)
        keeps the ids consecutive. */
    method AddEntity(be: PrefabEntity)
      modifies this`entities
      ensures entities == old(entities) + [be]
      ensures old(IdsConsecutive()) && be.id == NextEntityId(old(entities)) ==> IdsConsecutive()
    {
      ghost var before := EntityIds(entities);
      entities := entities + [be];
      assert EntityIds(entities) == before + [be.id];
      if Consecutive(before) {
        ConsecutiveAppend(before);
      }
    }

    /** Appends; a light built from the current list (its id is NextLightId)
        keeps the light ids consecutive. */
    method AddLight(l: Light)
      modifies this`lights
      ensures lights == old(lights) + [l]
      ensures old(LightIdsConsecutive()) && l.id == NextLightId(old(lights)) ==> LightIdsConsecutive()
    {
      ghost var before := LightIds(lights);
      lights := lights + [l];
      assert LightIds(lights) == before + [l.id];
      if Consecutive(before) {
        ConsecutiveAppend(before);
      }
    }

    /** Builds a one-node prefab carrying a plane of the given size and the floor
        material, wraps it in a new entity and appends that entity. */
    method CreateFloor(size: int)
      modifies this`entities
      ensures |entities| == |old(entities)| + 1
      ensures entities[..|old(entities)|] == old(entities)
      ensures fresh(entities[|entities| - 1])
      ensures var floor := entities[|entities| - 1];
        && floor.kind == PrefabKind && floor.visible && floor.model == Identity44
        && floor.id == NextEntityId(old(entities))
        && floor.prefab.Some?
        && floor.prefab.value.root.mesh == Some(Plane(size))
        && floor.prefab.value.root.material == Some(FloorMaterial())
      ensures old(IdsConsecutive()) ==> IdsConsecutive()
    {
      var root := DefaultNode.(material := Some(FloorMaterial()), mesh := Some(Plane(size)), model := Identity44);
      var prefabFloor := Prefab(root);
      var floor := new PrefabEntity(entities, prefabFloor, Identity44);
      AddEntity(floor);
    }
  }
}
