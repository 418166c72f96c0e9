/** renderer.cpp: the renderer object, its lazily created targets and flags, and
    the forward, shadow, deferred and irradiance passes, each returning the trace
    of the GPU work it issues. */
module Rendering {
  import opened Values
  import opened Ids
  import opened Lattice
  import opened Assets
  import opened Cameras
  import opened Gpu
  import opened Lights
  import opened Entities
  import opened Scenes
  import opened Traversal
  import opened Events
  import opened LightSchedule
  import opened Irradiance
  import opened Frames

  /** `sReflectionProbe`: a position and whether a cubemap is attached. */
  datatype ReflectionProbe = ReflectionProbe(pos: Vec3, hasCubemap: bool)

  /** A probe is usable for reflections when it has a cubemap and lies closer than 105. */
  predicate Usable(p: ReflectionProbe, distance: Vec3 -> real)
  {
    distance(p.pos) < 105.0 && p.hasCubemap
  }

  /** The environment the reflection pass samples: the last usable probe, else the skybox. */
  function ChosenEnvironment(ps: seq<ReflectionProbe>, distance: Vec3 -> real): Environment
  {
    if |ps| == 0 then SkyboxEnvironment
    else if Usable(ps[|ps| - 1], distance) then ProbeEnvironment(|ps| - 1)
    else ChosenEnvironment(ps[..|ps| - 1], distance)
  }

  /** The skybox is chosen iff no probe is usable; a chosen probe is usable and no later
      probe is (the choice is the last usable probe, not the nearest). */
  lemma {:induction false} ChosenEnvironmentSpec(ps: seq<ReflectionProbe>, distance: Vec3 -> real)
    ensures ChosenEnvironment(ps, distance) == SkyboxEnvironment <==>
      forall i :: 0 <= i < |ps| ==> !Usable(ps[i], distance)
    ensures ChosenEnvironment(ps, distance).ProbeEnvironment? ==>
      var i := ChosenEnvironment(ps, distance).probe;
      i < |ps| && Usable(ps[i], distance) && forall j :: i < j < |ps| ==> !Usable(ps[j], distance)
  {
    if |ps| > 0 && !Usable(ps[|ps| - 1], distance) {
      var init := ps[..|ps| - 1];
      ChosenEnvironmentSpec(init, distance);
      assert forall i :: 0 <= i < |init| ==> init[i] == ps[i];
    }
  }

  /** The shadow target of a light after `createShadowmap`, from the one it had: the
      existing target, or a new 1024x1024 single-target frame buffer. */
  predicate ShadowTargetAfter(f: Fbo?, f0: Fbo?)
  {
    f != null && (f0 != null ==> f == f0) &&
    (f0 == null ==> f.width == 1024 && f.height == 1024 && f.colorTargets == 1)
  }

  /** Every spot and directional light of the list has its shadow target. */
  ghost predicate ShadowTargetsReady(ls: seq<Light>)
    reads ls`lightType, ls`shadowFbo
  {
    forall j :: 0 <= j < |ls| && ls[j].lightType != Omni ==> ls[j].shadowFbo != null
  }

  /** The projection of a light's shadow camera: a perspective one for a spot light, an
      orthographic one over the light's frustum for a directional light. */
  function ShadowProjection(l: Light): Projection
    reads l`lightType, l`cnear, l`maxDist, l`frustrum, l`cfar
  {
    if l.lightType == Spot then Perspective(1.0, l.cnear, l.maxDist)
    else Orthographic(-l.frustrum, l.frustrum, -l.frustrum, l.frustrum, l.cnear, l.cfar)
  }

  /** What the shadow phase reads of a light: its id and its type. */
  datatype ShadowKey = ShadowKey(id: u32, lightType: LightType)

  function ShadowKeys(ls: seq<Light>): (r: seq<ShadowKey>)
    reads ls`id, ls`lightType
    ensures |r| == |ls| && forall j :: 0 <= j < |ls| ==> r[j] == ShadowKey(ls[j].id, ls[j].lightType)
  {
    if |ls| == 0 then [] else ShadowKeys(ls[..|ls| - 1]) + [ShadowKey(ls[|ls| - 1].id, ls[|ls| - 1].lightType)]
  }

  /** The depth work of the shadow phase: for each spot or directional light in list order,
      its target is bound and then the depth draws of the scene are issued into it. */
  function ShadowTrace(ks: seq<ShadowKey>, depth: seq<Event>): seq<Event>
  {
    if |ks| == 0 then []
    else
      var k := ks[|ks| - 1];
      ShadowTrace(ks[..|ks| - 1], depth) +
      (if k.lightType != Omni then [ShadowTargetBound(k.id)] + depth else [])
  }

  lemma ShadowTraceStep(ks: seq<ShadowKey>, i: nat, depth: seq<Event>)
    requires i < |ks|
    ensures ShadowTrace(ks[..i + 1], depth) == ShadowTrace(ks[..i], depth) +
      (if ks[i].lightType != Omni then [ShadowTargetBound(ks[i].id)] + depth else [])
  {
    assert ks[..i + 1][..i] == ks[..i];
  }

  /** The irradiance cache file `data/irradiance.bin`: absent, or its contents. */
  class CacheStore {
    var contents: Option<CacheFile>

    constructor (c: Option<CacheFile>)
      ensures contents == c
    {
      contents := c;
    }
  }

  /** The packing loop: a dx*dy*dz array of default coefficients, each probe writing its
      coefficients at its flattened index. */
  method PackProbes(ps: seq<Probe>, d: Dims) returns (data: seq<SH>)
    requires AllInRange(ps, d)
    ensures data == Packed(ps, d)
  {
    var shData := new SH[Count(d)](k => BlankSH);
    assert shData[..] == Packed(ps[..0], d);
    for iP := 0 to |ps|
      invariant shData[..] == Packed(ps[..iP], d)
    {
      var p := ps[iP];
      FlattenBound(p.index, d);
      var index := Flatten(p.index, d);
      assert ps[..iP + 1][..iP] == ps[..iP];
      shData[index] := p.sh;
    }
    assert ps[..|ps|] == ps;
    data := shData[..];
  }

  /** The three nested loops of `computeIrradiance`: z outermost, x innermost, one
      default-coefficient probe pushed per lattice slot at its world position. */
  method LayOutProbes(start: Vec3, delta: Vec3, d: Dims) returns (ps: seq<Probe>)
    ensures ps == Layout(start, delta, d)
  {
    ps := [];
    var z := 0;
    while z < d.z
      invariant 0 <= z <= d.z
      invariant |ps| == Flatten(Index3(0, 0, z), d) && LaidOut(ps, start, delta, d)
    {
      var y := 0;
      while y < d.y
        invariant 0 <= y <= d.y
        invariant |ps| == Flatten(Index3(0, y, z), d) && LaidOut(ps, start, delta, d)
      {
        var x := 0;
        while x < d.x
          invariant 0 <= x <= d.x
          invariant |ps| == Flatten(Index3(x, y, z), d) && LaidOut(ps, start, delta, d)
        {
          var idx := Index3(x, y, z);
          LaidOutPush(ps, start, delta, d, idx);
          ps := ps + [Probe(idx, ProbePosition(start, delta, idx), BlankSH)];
          x := x + 1;
        }
        FlattenRowEnd(y, z, d);
        y := y + 1;
      }
      FlattenLayerEnd(z, d);
      z := z + 1;
    }
    FlattenPastEnd(d);
    LaidOutComplete(ps, start, delta, d);
  }

  /** The capture loop: each probe's coefficients are replaced by those captured at its
      position; nothing else about the probe changes. */
  method CaptureProbes(ps: seq<Probe>, capture: Vec3 -> SH) returns (r: seq<Probe>)
    ensures r == Captured(ps, capture)
  {
    r := ps;
    var iP := 0;
    while iP < |r|
      invariant 0 <= iP <= |r| && |r| == |ps|
      invariant forall k :: 0 <= k < iP ==> r[k] == ps[k].(sh := capture(ps[k].pos))
      invariant forall k :: iP <= k < |r| ==> r[k] == ps[k]
    {
      var p := r[iP];
      r := r[iP := p.(sh := capture(p.pos))];
      iP := iP + 1;
    }
  }

  class Renderer {
    // render targets, created lazily
    var deferredFbo: Fbo?
    var completeFbo: Fbo?
    var ssaoFbo: Fbo?
    var auxFbo: Fbo?
    var aux2Fbo: Fbo?
    var irrFbo: Fbo?
    var reflectionFbo: Fbo?
    var volumetricFbo: Fbo
    var probesTexture: ProbeTexture?
    var decalDepthTexture: DepthTexture?
    // switches
    var showProperties: bool
    var degamma: bool
    var pbr: bool
    var showSsao: bool
    var applySsao: bool
    var applyVolumetric: bool
    var computeAmbientOcclusion: bool
    var applyEnvironmentReflections: bool
    var showReflectionProbes: bool
    var addDecal: bool
    var applyTonemapper: bool
    var applyGlow: bool
    var shInterpolation: bool
    var showIrradiance: bool
    /** The file-scope global `show_probes` (renderer.cpp:13). Only program start sets it
        (to false); it is a field here so that the frame functions can read it, and the
        constructor's `false` is that program-start value. */
    var showProbes: bool
    /** Whether the HDRE panorama loaded (`skybox != NULL`). */
    var hasSkybox: bool
    // irradiance lattice
    var probes: seq<Probe>
    var startPos: Vec3
    var endPos: Vec3
    var dims: Dims
    var delta: Vec3
    var reflectionProbes: seq<ReflectionProbe>
    // tone mapper
    var toneScale: real
    var toneAverageLum: real
    var toneLumWhite2: real
    var toneIGamma: real

    /** `Renderer()`: no targets but the quarter-size volumetric one, the default switches,
        the two reflection probes and the tone-mapper parameters. */
    constructor (windowWidth: nat, windowHeight: nat, skyboxLoaded: bool)
      ensures deferredFbo == null && completeFbo == null && ssaoFbo == null
      ensures irrFbo == null && reflectionFbo == null
      ensures auxFbo == null && aux2Fbo == null
      ensures fresh(volumetricFbo) && volumetricFbo.colorTargets == 1
      ensures volumetricFbo.width == windowWidth / 4 && volumetricFbo.height == windowHeight / 4
      ensures probesTexture == null && decalDepthTexture == null
      ensures !showProperties && degamma && pbr && !showSsao && applySsao && !applyVolumetric
      ensures computeAmbientOcclusion && applyEnvironmentReflections && !showReflectionProbes
      ensures !addDecal && !applyTonemapper && !applyGlow && !shInterpolation && !showIrradiance
      ensures !showProbes && hasSkybox == skyboxLoaded && probes == []
      ensures reflectionProbes == [ReflectionProbe(Vec3(171.0, 100.0, -222.0), true),
                                   ReflectionProbe(Vec3(171.0, 100.0, 10.0), true)]
      ensures toneScale == 1.0 && toneAverageLum == 1.0 && toneLumWhite2 == 1.0 && toneIGamma == 2.2
    {
      deferredFbo := null;
      completeFbo := null;
      ssaoFbo := null;
      auxFbo := null;
      aux2Fbo := null;
      irrFbo := null;
      reflectionFbo := null;
      volumetricFbo := new Fbo(windowWidth / 4, windowHeight / 4, 1);
      probesTexture := null;
      showProperties := false;
      degamma := true;
      pbr := true;
      showSsao := false;
      applySsao := true;
      applyVolumetric := false;
      computeAmbientOcclusion := true;
      applyEnvironmentReflections := true;
      showReflectionProbes := false;
      addDecal := false;
      applyTonemapper := false;
      applyGlow := false;
      shInterpolation := false;
      showIrradiance := false;
      showProbes := false;
      hasSkybox := skyboxLoaded;
      decalDepthTexture := null;
      probes := [];
      startPos, endPos, delta := Zero3, Zero3, Zero3;
      dims := Dims(0, 0, 0);
      reflectionProbes := [];
      toneScale := 1.0;
      toneAverageLum := 1.0;
      toneLumWhite2 := 1.0;
      toneIGamma := 2.2;
      new;
      GenerateReflectionProbes();
    }

    /** Appends the two fixed probes, each with a 512x512 cubemap. */
    method GenerateReflectionProbes()
      modifies this`reflectionProbes
      ensures reflectionProbes == old(reflectionProbes) +
        [ReflectionProbe(Vec3(171.0, 100.0, -222.0), true), ReflectionProbe(Vec3(171.0, 100.0, 10.0), true)]
    {
      reflectionProbes := reflectionProbes + [ReflectionProbe(Vec3(171.0, 100.0, -222.0), true)];
      reflectionProbes := reflectionProbes + [ReflectionProbe(Vec3(171.0, 100.0, 10.0), true)];
    }

    // ------------------------------------------------------------ forward

    /** One mesh lit by every visible light of the scene, as the light schedule prescribes;
        nothing without a mesh with vertices, a material or the "forward" shader. */
    method RenderMeshWithMaterial(mesh: Option<Mesh>, material: Option<Material>, lights: seq<Light>, ambient: real,
                                  shaders: ShaderSet)
      returns (t: seq<Event>)
      ensures t == if Drawable(mesh, material) && shaders.forward
                   then ForwardSchedule(mesh.value, material.value, Records(lights), ambient)
                   else []
    {
      t := [];
      if mesh.None? || !HasVertices(mesh.value) || material.None? {
        return;
      }
      if !shaders.forward {
        return;
      }
      var m := mesh.value;
      var mat := material.value;
      ghost var rs := Records(lights);
      var it := 0;
      var i := 0;
      while i < |lights|
        invariant 0 <= i <= |lights|
        invariant it == |Selected(rs[..i], Visible)|
        invariant t == ForwardSchedule(m, mat, rs[..i], ambient)
      {
        var light := lights[i];
        ForwardScheduleStep(m, mat, rs, i, ambient);
        SelectedStep(rs, i, Visible);
        if light.visible {
          var amb: real;
          var emissive: Emissive;
          var blend: bool;
          if it == 0 {
            blend := false;
            amb := ambient;
            if mat.emissiveTexture.Some? {
              emissive := Emissive(MaterialEmissive, mat.emissiveFactor);
            } else if mat.emissiveFactor != Zero3 {
              emissive := Emissive(WhiteEmissive, mat.emissiveFactor);
            } else {
              emissive := Emissive(BlackEmissive, Zero3);
            }
          } else {
            blend := true;
            amb := 0.0;
            emissive := Emissive(BlackEmissive, Zero3);
          }
          var code: nat;
          if light.lightType == Directional {
            code := 0;
          } else if light.lightType == Omni {
            code := 1;
          } else {
            code := 2;
          }
          t := t + [ForwardDraw(m, i, amb, emissive, blend, code, light.shadowFbo != null)];
          it := it + 1;
        }
        i := i + 1;
      }
      assert rs[..|lights|] == rs;
    }

    /** The forward draws of a node graph: the nodes `Drawn` lists, each lit by the scene's lights. */
    method RenderNode(n: Node, inFrustum: Node -> bool, lights: seq<Light>, ambient: real, shaders: ShaderSet)
      returns (t: seq<Event>)
      ensures t == ForwardDraws(Drawn(n, inFrustum), Records(lights), ambient, shaders)
      decreases n, 1
    {
      if !n.visible {
        return [];
      }
      t := [];
      if n.mesh.Some? && n.material.Some? {
        if inFrustum(n) {
          t := RenderMeshWithMaterial(n.mesh, n.material, lights, ambient, shaders);
        }
      }
      var below := RenderChildren(n.children, inFrustum, lights, ambient, shaders);
      ForwardDrawsOfNode(n, inFrustum, Records(lights), ambient, shaders);
      t := t + below;
    }

    /** The child loop of `renderNode`: each child's graph in order. */
    method RenderChildren(ns: seq<Node>, inFrustum: Node -> bool, lights: seq<Light>, ambient: real, shaders: ShaderSet)
      returns (t: seq<Event>)
      ensures t == ForwardDraws(DrawnAll(ns, inFrustum), Records(lights), ambient, shaders)
      decreases ns, 0
    {
      ghost var rs := Records(lights);
      t := [];
      var i := 0;
      while i < |ns|
        invariant 0 <= i <= |ns|
        invariant t == ForwardDraws(DrawnAll(ns[..i], inFrustum), rs, ambient, shaders)
      {
        var c := RenderNode(ns[i], inFrustum, lights, ambient, shaders);
        ForwardDrawsChildren(ns, i, inFrustum, rs, ambient, shaders);
        t := t + c;
        i := i + 1;
      }
      assert ns[..|ns|] == ns;
    }

    /** Clears, draws the skybox if there is one, then every prefab entity's graph in list order. */
    method RenderSceneForward(scene: Scene, frustum: (Matrix44, Node) -> bool, shaders: ShaderSet)
      returns (t: seq<Event>)
      requires PrefabsPresent(scene.entities)
      ensures t == [ClearTarget] + (if hasSkybox then [SkyboxDraw] else []) +
        SceneForward(scene.entities, frustum, Records(scene.lights), scene.ambientLight, shaders)
    {
      t := [ClearTarget];
      if hasSkybox {
        t := t + [SkyboxDraw];
      }
      var drawn := ForwardEntities(scene.entities, frustum, scene.lights, scene.ambientLight, shaders);
      t := t + drawn;
    }

    /** The entity loop of `renderScene`: each prefab entity's graph, placed by its model, in list order. */
    method ForwardEntities(es: seq<PrefabEntity>, frustum: (Matrix44, Node) -> bool, lights: seq<Light>,
                           ambient: real, shaders: ShaderSet)
      returns (drawn: seq<Event>)
      requires PrefabsPresent(es)
      ensures drawn == SceneForward(es, frustum, Records(lights), ambient, shaders)
    {
      ghost var rs := Records(lights);
      drawn := [];
      var i := 0;
      while i < |es|
        invariant 0 <= i <= |es|
        invariant PrefabsPresent(es[..i]) && Records(lights) == rs
        invariant drawn == SceneForward(es[..i], frustum, rs, ambient, shaders)
      {
        var e := es[i];
        assert es[..i + 1][..i] == es[..i];
        if e.kind == PrefabKind {
          var c := RenderNode(e.prefab.value.root, PlacedTest(frustum, e.model), lights, ambient, shaders);
          drawn := drawn + c;
        }
        i := i + 1;
      }
      assert es[..|es|] == es;
    }

    // ------------------------------------------------------------ shadows

    /** The depth draws of one prefab graph: its opaque leaves, visibility ignored. */
    method CheckRendering(n: Node) returns (t: seq<Event>)
      requires ShadowWalkable(n)
      ensures t == GraphShadows(n)
      decreases n
    {
      CastersHaveMeshes(n);
      if |n.children| != 0 {
        t := [];
        var i := 0;
        CastersAllHaveMeshes(n.children[..0]);
        while i < |n.children|
          invariant 0 <= i <= |n.children|
          invariant forall k :: 0 <= k < |CastersAll(n.children[..i])| ==> CastersAll(n.children[..i])[k].mesh.Some?
          invariant t == ShadowDraws(CastersAll(n.children[..i]))
        {
          var c := CheckRendering(n.children[i]);
          CastersHaveMeshes(n.children[i]);
          assert n.children[..i + 1][..i] == n.children[..i];
          ShadowDrawsAppend(CastersAll(n.children[..i]), Casters(n.children[i]));
          t := t + c;
          i := i + 1;
        }
        assert n.children[..|n.children|] == n.children;
      } else if n.material.value.alphaMode == NoAlpha {
        t := [ShadowDraw(n.mesh.value)];
      } else {
        t := [];
      }
    }

    /** The entity loop of `createShadowmap`: every prefab entity's opaque leaves, in list order. */
    method ShadowCasters(entities: seq<PrefabEntity>) returns (t: seq<Event>)
      requires PrefabsShadowWalkable(entities)
      ensures t == SceneShadows(entities)
    {
      t := [];
      var i := 0;
      while i < |entities|
        invariant 0 <= i <= |entities|
        invariant PrefabsShadowWalkable(entities[..i])
        invariant t == SceneShadows(entities[..i])
      {
        var e := entities[i];
        assert entities[..i + 1][..i] == entities[..i];
        if e.kind == PrefabKind {
          var c := CheckRendering(e.prefab.value.root);
          t := t + c;
        }
        i := i + 1;
      }
      assert entities[..|entities|] == entities;
    }

    /** `createShadowmap`: only for spot and directional lights. A missing target is created
        at 1024x1024 and an existing one reused; the light gets a fresh camera with the
        light's projection; every prefab's opaque leaves are drawn; the camera that was
        current before is current again. */
    method CreateShadowmap(entities: seq<PrefabEntity>, l: Light, active: ActiveCamera) returns (t: seq<Event>)
      requires PrefabsShadowWalkable(entities)
      requires l.lightType != Omni ==> active.current != null
      modifies l`shadowFbo, l`camera, active`current
      ensures PrefabsShadowWalkable(entities) && SceneShadows(entities) == old(SceneShadows(entities))
      ensures l.lightType == Omni ==>
        t == [] && l.shadowFbo == old(l.shadowFbo) && l.camera == old(l.camera) && active.current == old(active.current)
      ensures l.lightType != Omni ==>
        && ShadowTargetAfter(l.shadowFbo, old(l.shadowFbo))
        && (old(l.shadowFbo) == null ==> fresh(l.shadowFbo))
        && fresh(l.camera) && l.camera.projection == ShadowProjection(l)
        && active.current == old(active.current)
        && t == [ShadowTargetBound(l.id)] + SceneShadows(entities)
    {
      t := [];
      if l.lightType == Directional || l.lightType == Spot {
        var mainCamera := PrepareShadowmap(l, active);
        var depth := ShadowCasters(entities);
        t := [ShadowTargetBound(l.id)] + depth;
        mainCamera.Enable(active);
      }
    }

    /** The set-up half of `createShadowmap` for a spot or directional light: the target is
        created if missing, the light gets a fresh camera with its projection and that camera
        is made current. Returns the camera that was current before. */
    method PrepareShadowmap(l: Light, active: ActiveCamera) returns (mainCamera: Camera)
      requires l.lightType != Omni && active.current != null
      modifies l`shadowFbo, l`camera, active`current
      ensures mainCamera == old(active.current)
      ensures ShadowTargetAfter(l.shadowFbo, old(l.shadowFbo))
      ensures old(l.shadowFbo) == null ==> fresh(l.shadowFbo)
      ensures fresh(l.camera) && active.current == l.camera
      ensures l.camera.projection == ShadowProjection(l)
    {
      if l.shadowFbo == null {
        var fbo := new Fbo(1024, 1024, 1);
        l.shadowFbo := fbo;
      }
      mainCamera := active.current;
      var cameraL := new Camera();
      if l.lightType == Spot {
        cameraL.SetPerspective(1.0, l.cnear, l.maxDist);
      } else {
        cameraL.SetOrthographic(-l.frustrum, l.frustrum, -l.frustrum, l.frustrum, l.cnear, l.cfar);
      }
      l.camera := cameraL;
      l.camera.Enable(active);
    }

    /** The shadow phase of both pipelines: `createShadowmap` for every light in list order.
        Afterwards every spot and directional light has a target and the current camera is
        the one there was before. */
    method ShadowPass(scene: Scene, active: ActiveCamera) returns (t: seq<Event>)
      requires PrefabsShadowWalkable(scene.entities)
      requires active.current != null || forall j :: 0 <= j < |scene.lights| ==> scene.lights[j].lightType == Omni
      modifies scene.lights`shadowFbo, scene.lights`camera, active`current
      ensures t == ShadowTrace(old(ShadowKeys(scene.lights)), old(SceneShadows(scene.entities)))
      ensures forall j :: 0 <= j < |scene.lights| && scene.lights[j].lightType != Omni ==>
        scene.lights[j].shadowFbo != null
      ensures active.current == old(active.current)
    {
      var ls := scene.lights;
      var es := scene.entities;
      ghost var depth := SceneShadows(scene.entities);
      ghost var keys := ShadowKeys(scene.lights);
      t := [];
      var i := 0;
      while i < |ls|
        invariant 0 <= i <= |ls|
        invariant PrefabsShadowWalkable(es) && SceneShadows(es) == depth
        invariant forall j :: 0 <= j < |ls| ==> keys[j] == ShadowKey(ls[j].id, ls[j].lightType)
        invariant t == ShadowTrace(keys[..i], depth)
        invariant active.current == old(active.current)
        invariant forall j :: 0 <= j < i && ls[j].lightType != Omni ==> ls[j].shadowFbo != null
      {
        label Before:
        var c := CreateShadowmap(es, ls[i], active);
        forall j | 0 <= j <= i && ls[j].lightType != Omni
          ensures ls[j].shadowFbo != null
        {
          if ls[j] != ls[i] {
            assert ls[j].shadowFbo == old@Before(ls[j].shadowFbo);
          }
        }
        forall j | 0 <= j < |ls|
          ensures keys[j] == ShadowKey(ls[j].id, ls[j].lightType)
        {
          assert ls[j].id == old@Before(ls[j].id) && ls[j].lightType == old@Before(ls[j].lightType);
        }
        ShadowTraceStep(keys, i, depth);
        t := t + c;
        i := i + 1;
      }
      assert keys[..|keys|] == keys;
      assert t == ShadowTrace(keys, depth);
    }

    /** `renderForward`: the shadow phase, then the forward scene pass. */
    method RenderForward(scene: Scene, frustum: (Matrix44, Node) -> bool, active: ActiveCamera, shaders: ShaderSet)
      returns (t: seq<Event>)
      requires PrefabsShadowWalkable(scene.entities)
      requires active.current != null || forall j :: 0 <= j < |scene.lights| ==> scene.lights[j].lightType == Omni
      modifies scene.lights`shadowFbo, scene.lights`camera, active`current
      ensures t == ShadowTrace(old(ShadowKeys(scene.lights)), old(SceneShadows(scene.entities))) + ([ClearTarget] +
        (if hasSkybox then [SkyboxDraw] else []) +
        SceneForward(scene.entities, frustum, Records(scene.lights), scene.ambientLight, shaders))
      ensures forall j :: 0 <= j < |scene.lights| && scene.lights[j].lightType != Omni ==>
        scene.lights[j].shadowFbo != null
      ensures active.current == old(active.current)
    {
      var s := ShadowPass(scene, active);
      var f := RenderSceneForward(scene, frustum, shaders);
      t := s + f;
    }

    // ------------------------------------------------------------ deferred

    /** The G-buffer draw of one mesh, or nothing without a mesh with vertices, a material
        or the "multi" shader. */
    method RenderMeshWithMaterialDeferred(mesh: Option<Mesh>, material: Option<Material>, shaders: ShaderSet)
      returns (t: seq<Event>)
      ensures !(Drawable(mesh, material) && shaders.multi) ==> t == []
      ensures Drawable(mesh, material) && shaders.multi ==>
        |t| == 1 && t[0].GeometryDraw? && t[0].mesh == mesh.value
        && t[0].alphaCutoff == (if material.value.alphaMode == Mask then material.value.alphaCutoff else 0.0)
        && (material.value.emissiveTexture.Some? ==> t[0].emissive == Emissive(MaterialEmissive, Zero3))
        && (material.value.emissiveTexture.None? ==> t[0].emissive == Emissive(BlackEmissive, material.value.emissiveFactor))
        && t[0].probesTexture == (probesTexture != null)
      ensures t == MeshDeferred(Node(true, mesh, material, Identity44, []), probesTexture != null, shaders)
    {
      if mesh.None? || !HasVertices(mesh.value) || material.None? {
        return [];
      }
      if !shaders.multi {
        return [];
      }
      var mat := material.value;
      var emissive: Emissive;
      if mat.emissiveTexture.Some? {
        emissive := Emissive(MaterialEmissive, Zero3);
      } else {
        emissive := Emissive(BlackEmissive, mat.emissiveFactor);
      }
      var cutoff := if mat.alphaMode == Mask then mat.alphaCutoff else 0.0;
      t := [GeometryDraw(mesh.value, cutoff, emissive, probesTexture != null)];
    }

    /** The G-buffer draws of a node graph: one per node `Drawn` lists. */
    method RenderNodeDeferred(n: Node, inFrustum: Node -> bool, shaders: ShaderSet) returns (t: seq<Event>)
      ensures t == DeferredDraws(Drawn(n, inFrustum), probesTexture != null, shaders)
      decreases n, 1
    {
      if !n.visible {
        return [];
      }
      t := [];
      if n.mesh.Some? && n.material.Some? {
        if inFrustum(n) {
          t := RenderMeshWithMaterialDeferred(n.mesh, n.material, shaders);
        }
      }
      var below := RenderChildrenDeferred(n.children, inFrustum, shaders);
      DeferredDrawsOfNode(n, inFrustum, probesTexture != null, shaders);
      t := t + below;
    }

    /** The child loop of `renderNodeDeferred`. */
    method RenderChildrenDeferred(ns: seq<Node>, inFrustum: Node -> bool, shaders: ShaderSet) returns (t: seq<Event>)
      ensures t == DeferredDraws(DrawnAll(ns, inFrustum), probesTexture != null, shaders)
      decreases ns, 0
    {
      t := [];
      var i := 0;
      while i < |ns|
        invariant 0 <= i <= |ns|
        invariant t == DeferredDraws(DrawnAll(ns[..i], inFrustum), probesTexture != null, shaders)
      {
        var c := RenderNodeDeferred(ns[i], inFrustum, shaders);
        DeferredDrawsChildren(ns, i, inFrustum, probesTexture != null, shaders);
        t := t + c;
        i := i + 1;
      }
      assert ns[..|ns|] == ns;
    }

    /** Clears the G-buffers, then draws every prefab entity's graph into them in list order. */
    method GeometryPass(es: seq<PrefabEntity>, frustum: (Matrix44, Node) -> bool, shaders: ShaderSet)
      returns (t: seq<Event>)
      requires PrefabsPresent(es)
      ensures t == [GBufferCleared] + SceneDeferred(es, frustum, probesTexture != null, shaders)
    {
      ghost var bound := probesTexture != null;
      var drawn: seq<Event> := [];
      var i := 0;
      while i < |es|
        invariant 0 <= i <= |es|
        invariant PrefabsPresent(es[..i]) && (probesTexture != null) == bound
        invariant drawn == SceneDeferred(es[..i], frustum, bound, shaders)
      {
        var e := es[i];
        assert es[..i + 1][..i] == es[..i];
        if e.kind == PrefabKind {
          var c := RenderNodeDeferred(e.prefab.value.root, PlacedTest(frustum, e.model), shaders);
          drawn := drawn + c;
        }
        i := i + 1;
      }
      assert es[..|es|] == es;
      t := [GBufferCleared] + drawn;
    }

    /** First lighting loop of the resolve: one full-screen pass per visible spot or
        directional light, the first unblended with the ambient and the G-buffer irradiance,
        the rest blended with neither. Returns the blend state it leaves. */
    method FullScreenPasses(lights: seq<Light>, ambient: real) returns (t: seq<Event>, blend: bool)
      ensures t == FullScreenSchedule(Records(lights), ambient)
      ensures blend == (|Selected(Records(lights), VisibleSpotOrDirectional)| > 0)
    {
      ghost var rs := Records(lights);
      blend := false;
      var amb := ambient;
      var irr := GBufferIrradiance;
      t := [];
      var i := 0;
      while i < |lights|
        invariant 0 <= i <= |lights|
        invariant t == FullScreenSchedule(rs[..i], ambient)
        invariant blend == (|Selected(rs[..i], VisibleSpotOrDirectional)| > 0)
        invariant amb == (if blend then 0.0 else ambient)
        invariant irr == (if blend then BlackIrradiance else GBufferIrradiance)
      {
        var light := lights[i];
        FullScreenScheduleStep(rs, i, ambient);
        SelectedStep(rs, i, VisibleSpotOrDirectional);
        if light.visible {
          if light.lightType == Spot || light.lightType == Directional {
            var code: nat := if light.lightType == Spot then 2 else 0;
            t := t + [FullScreenLight(i, amb, irr, blend, code, light.shadowFbo != null)];
            irr := BlackIrradiance;
            amb := 0.0;
            blend := true;
          }
        }
        i := i + 1;
      }
      assert rs[..|lights|] == rs;
    }

    /** Second lighting loop: one light volume per visible omni light, in the blend state
        the first loop left. */
    method LightVolumes(lights: seq<Light>, blend: bool) returns (t: seq<Event>)
      ensures t == VolumeSchedule(Records(lights), blend)
    {
      ghost var rs := Records(lights);
      t := [];
      var i := 0;
      while i < |lights|
        invariant 0 <= i <= |lights|
        invariant t == VolumeSchedule(rs[..i], blend)
      {
        var light := lights[i];
        VolumeScheduleStep(rs, i, blend);
        if light.visible {
          if light.lightType == Omni {
            t := t + [LightVolume(i, 0.0, blend, 1)];
          }
        }
        i := i + 1;
      }
      assert rs[..|lights|] == rs;
    }

    /** Both lighting loops of the resolve, as the reference schedule prescribes. */
    method ResolveLights(scene: Scene) returns (t: seq<Event>)
      ensures t == ResolveSchedule(Records(scene.lights), scene.ambientLight)
    {
      var passes, blend := FullScreenPasses(scene.lights, scene.ambientLight);
      var volumes := LightVolumes(scene.lights, blend);
      t := passes + volumes;
    }

    /** The reflection environment: starts at the skybox and takes every usable probe in turn. */
    method SelectEnvironment(distance: Vec3 -> real) returns (env: Environment)
      ensures env == ChosenEnvironment(reflectionProbes, distance)
    {
      env := SkyboxEnvironment;
      var i := 0;
      while i < |reflectionProbes|
        invariant 0 <= i <= |reflectionProbes|
        invariant env == ChosenEnvironment(reflectionProbes[..i], distance)
      {
        var probe := reflectionProbes[i];
        var dist := distance(probe.pos);
        assert reflectionProbes[..i + 1][..i] == reflectionProbes[..i];
        if dist < 105.0 && probe.hasCubemap {
          env := ProbeEnvironment(i);
        }
        i := i + 1;
      }
      assert reflectionProbes[..|reflectionProbes|] == reflectionProbes;
    }

    /** The glow chain: ten blur iterations. */
    method BloomPasses() returns (t: seq<Event>)
      ensures |t| == 10 && forall k :: 0 <= k < 10 ==> t[k] == BloomBlur(k)
    {
      t := [];
      for i := 0 to 10
        invariant |t| == i && forall k :: 0 <= k < i ==> t[k] == BloomBlur(k)
      {
        t := t + [BloomBlur(i)];
      }
    }

    /** One marker per reflection probe, in list order. */
    method ReflectionMarkers() returns (t: seq<Event>)
      ensures |t| == |reflectionProbes| && forall k :: 0 <= k < |t| ==> t[k] == ReflectionProbeMarker(k)
    {
      t := [];
      for i := 0 to |reflectionProbes|
        invariant |t| == i && forall k :: 0 <= k < i ==> t[k] == ReflectionProbeMarker(k)
      {
        t := t + [ReflectionProbeMarker(i)];
      }
    }

    /** One marker per irradiance probe, in list order. */
    method IrradianceMarkers() returns (t: seq<Event>)
      ensures |t| == |probes| && forall k :: 0 <= k < |t| ==> t[k] == IrradianceProbeMarker(k)
    {
      t := [];
      for i := 0 to |probes|
        invariant |t| == i && forall k :: 0 <= k < i ==> t[k] == IrradianceProbeMarker(k)
      {
        t := t + [IrradianceProbeMarker(i)];
      }
    }

    /** The lit branch up to the reflections: clear, skybox, light resolve, reflections. */
    function LitHead(scene: Scene, distance: Vec3 -> real): seq<Event>
      reads this`hasSkybox, this`applyEnvironmentReflections, this`reflectionProbes, scene, scene.lights
    {
      [ClearTarget] + (if hasSkybox then [SkyboxDraw] else [])
      + ResolveSchedule(Records(scene.lights), scene.ambientLight)
      + (if applyEnvironmentReflections && hasSkybox
         then [ReflectionsDraw(ChosenEnvironment(reflectionProbes, distance))] else [])
    }

    /** The passes after the reflections: the occlusion view, the volumetric pass, which
        looks only at the first light's shadow target, the glow chain and the presentation. */
    function PostEffects(scene: Scene): seq<Event>
      reads this`showSsao, this`applyVolumetric, this`applyGlow, this`applyTonemapper, scene, scene.lights
      requires |scene.lights| > 0
    {
      (if showSsao then [ShowOcclusion] else [])
      + (if scene.lights[0].shadowFbo != null && applyVolumetric then [VolumetricDraw] else [])
      + (if applyGlow then seq(10, k requires 0 <= k => BloomBlur(k)) + [BloomComposite] else [])
      + [Present(applyTonemapper)]
    }

    /** The probe markers drawn last: reflection probes, then irradiance probes, each when shown. */
    function Markers(): seq<Event>
      reads this`showReflectionProbes, this`reflectionProbes, this`showProbes, this`probes
    {
      (if showReflectionProbes then seq(|reflectionProbes|, k requires 0 <= k => ReflectionProbeMarker(k)) else [])
      + (if showProbes then seq(|probes|, k requires 0 <= k => IrradianceProbeMarker(k)) else [])
    }

    /** The lit frame's events after the G-buffer, decal and occlusion passes. */
    function LitComposite(scene: Scene, distance: Vec3 -> real): seq<Event>
      reads this`hasSkybox, this`applyEnvironmentReflections, this`reflectionProbes
      reads this`showSsao, this`applyVolumetric, this`applyGlow, this`applyTonemapper
      reads this`showReflectionProbes, this`showProbes, this`probes, scene, scene.lights
      requires |scene.lights| > 0
    {
      LitHead(scene, distance) + PostEffects(scene) + Markers()
    }

    /** The lit branch up to the reflections. */
    method ComposeHead(scene: Scene, distance: Vec3 -> real) returns (head: seq<Event>)
      ensures head == LitHead(scene, distance)
    {
      var sky: seq<Event> := [];
      if hasSkybox {
        sky := [SkyboxDraw];
      }
      var lit := ResolveLights(scene);
      var reflections: seq<Event> := [];
      if applyEnvironmentReflections && hasSkybox {
        var env := SelectEnvironment(distance);
        reflections := [ReflectionsDraw(env)];
      }
      head := [ClearTarget] + sky + lit + reflections;
    }

    /** The occlusion view, the volumetric pass, the glow chain and the presentation. */
    method ComposePost(scene: Scene) returns (post: seq<Event>)
      requires |scene.lights| > 0
      ensures post == PostEffects(scene)
    {
      var ssao: seq<Event> := [];
      if showSsao {
        ssao := [ShowOcclusion];
      }
      var volumetric: seq<Event> := [];
      if scene.lights[0].shadowFbo != null && applyVolumetric {
        volumetric := [VolumetricDraw];
      }
      var glow: seq<Event> := [];
      if applyGlow {
        var bloom := BloomPasses();
        assert bloom == seq(10, k requires 0 <= k => BloomBlur(k));
        glow := bloom + [BloomComposite];
      }
      post := ssao + volumetric + glow + [Present(applyTonemapper)];
    }

    /** The probe markers. */
    method ComposeMarkers() returns (marks: seq<Event>)
      ensures marks == Markers()
    {
      var reflectionMarks: seq<Event> := [];
      if showReflectionProbes {
        reflectionMarks := ReflectionMarkers();
        assert reflectionMarks == seq(|reflectionProbes|, k requires 0 <= k => ReflectionProbeMarker(k));
      }
      var probeMarks: seq<Event> := [];
      if showProbes {
        probeMarks := IrradianceMarkers();
        assert probeMarks == seq(|probes|, k requires 0 <= k => IrradianceProbeMarker(k));
      }
      marks := reflectionMarks + probeMarks;
    }

    /** The lit branch: skybox, light resolve, reflections, occlusion view, the volumetric
        pass of the first light, glow, presentation and the probe markers. */
    method ComposeLit(scene: Scene, distance: Vec3 -> real) returns (t: seq<Event>)
      requires |scene.lights| > 0
      ensures t == LitComposite(scene, distance)
    {
      var head := ComposeHead(scene, distance);
      var post := ComposePost(scene);
      var marks := ComposeMarkers();
      t := head + post + marks;
    }

    /** The deferred frame after the shadow phase: the G-buffer pass, the decal, the occlusion
        pass, then the G-buffer views, the probe texture view or the lit frame. */
    function DeferredFrame(scene: Scene, frustum: (Matrix44, Node) -> bool, shaders: ShaderSet,
                           distance: Vec3 -> real): seq<Event>
      reads this`hasSkybox, this`applyEnvironmentReflections, this`reflectionProbes
      reads this`showSsao, this`applyVolumetric, this`applyGlow, this`applyTonemapper
      reads this`showReflectionProbes, this`showProbes, this`probes, scene, scene.lights, scene.entities
      reads this`addDecal, this`computeAmbientOcclusion, this`showProperties, this`showIrradiance, this`probesTexture
      requires PrefabsPresent(scene.entities)
      requires !showProperties && !(showIrradiance && probesTexture != null) ==> |scene.lights| > 0
    {
      ([GBufferCleared] + SceneDeferred(scene.entities, frustum, probesTexture != null, shaders))
      + DeferredTail(scene, distance)
    }

    /** The deferred frame after the G-buffer pass: the decal, the occlusion pass, then the view. */
    function DeferredTail(scene: Scene, distance: Vec3 -> real): seq<Event>
      reads this`hasSkybox, this`applyEnvironmentReflections, this`reflectionProbes
      reads this`showSsao, this`applyVolumetric, this`applyGlow, this`applyTonemapper
      reads this`showReflectionProbes, this`showProbes, this`probes, scene, scene.lights
      reads this`addDecal, this`computeAmbientOcclusion, this`showProperties, this`showIrradiance, this`probesTexture
      requires !showProperties && !(showIrradiance && probesTexture != null) ==> |scene.lights| > 0
    {
      (if addDecal then [DecalDraw] else [])
      + (if computeAmbientOcclusion then [OcclusionDraw] else [])
      + DeferredView(scene, distance)
    }

    /** What the deferred frame shows: the G-buffers, else the probe texture when it is
        shown and exists, else the lit frame. */
    function DeferredView(scene: Scene, distance: Vec3 -> real): seq<Event>
      reads this`hasSkybox, this`applyEnvironmentReflections, this`reflectionProbes
      reads this`showSsao, this`applyVolumetric, this`applyGlow, this`applyTonemapper
      reads this`showReflectionProbes, this`showProbes, this`probes, scene, scene.lights
      reads this`showProperties, this`showIrradiance, this`probesTexture
      requires !showProperties && !(showIrradiance && probesTexture != null) ==> |scene.lights| > 0
    {
      if showProperties then [ShowGBuffers]
      else if showIrradiance && probesTexture != null then [ShowProbesTexture]
      else LitComposite(scene, distance)
    }

    /** `renderMeshinDeferred`: creates the G-buffer and post-process targets at window size
        on first use, fills the G-buffer, optionally stamps the decal and computes occlusion,
        then shows the G-buffers, or the probe texture, or the lit frame. The lit frame reads
        the first light, so the scene must then have one. */
    method RenderMeshInDeferred(scene: Scene, frustum: (Matrix44, Node) -> bool, shaders: ShaderSet,
                                distance: Vec3 -> real, width: nat, height: nat)
      returns (t: seq<Event>)
      requires PrefabsPresent(scene.entities)
      requires !showProperties && !(showIrradiance && probesTexture != null) ==> |scene.lights| > 0
      modifies this`deferredFbo, this`completeFbo, this`ssaoFbo, this`auxFbo, this`aux2Fbo, this`decalDepthTexture
      ensures old(deferredFbo) == null ==>
        && fresh(deferredFbo) && deferredFbo.width == width && deferredFbo.height == height
        && deferredFbo.colorTargets == 4
        && fresh(completeFbo) && completeFbo.width == width && completeFbo.height == height
        && completeFbo.colorTargets == 2
        && fresh(ssaoFbo) && ssaoFbo.width == width && ssaoFbo.height == height && ssaoFbo.colorTargets == 1
        && fresh(auxFbo) && auxFbo.width == width && auxFbo.height == height && auxFbo.colorTargets == 2
        && fresh(aux2Fbo) && aux2Fbo.width == width && aux2Fbo.height == height && aux2Fbo.colorTargets == 1
      ensures old(deferredFbo) != null ==>
        deferredFbo == old(deferredFbo) && completeFbo == old(completeFbo) && ssaoFbo == old(ssaoFbo)
        && auxFbo == old(auxFbo) && aux2Fbo == old(aux2Fbo)
      ensures addDecal && old(decalDepthTexture) == null ==>
        fresh(decalDepthTexture) && decalDepthTexture.width == deferredFbo.width
        && decalDepthTexture.height == deferredFbo.height
      ensures !(addDecal && old(decalDepthTexture) == null) ==> decalDepthTexture == old(decalDepthTexture)
      ensures t == DeferredFrame(scene, frustum, shaders, distance)
    {
      PrepareTargets(width, height);
      t := ComposeDeferred(scene, frustum, shaders, distance);
    }

    /** The targets `renderMeshinDeferred` creates on first use: the G-buffer and
        post-process targets, and the decal's depth copy when decals are on. */
    method PrepareTargets(width: nat, height: nat)
      modifies this`deferredFbo, this`completeFbo, this`ssaoFbo, this`auxFbo, this`aux2Fbo, this`decalDepthTexture
      ensures old(deferredFbo) == null ==>
        && fresh(deferredFbo) && deferredFbo.width == width && deferredFbo.height == height
        && deferredFbo.colorTargets == 4
        && fresh(completeFbo) && completeFbo.width == width && completeFbo.height == height
        && completeFbo.colorTargets == 2
        && fresh(ssaoFbo) && ssaoFbo.width == width && ssaoFbo.height == height && ssaoFbo.colorTargets == 1
        && fresh(auxFbo) && auxFbo.width == width && auxFbo.height == height && auxFbo.colorTargets == 2
        && fresh(aux2Fbo) && aux2Fbo.width == width && aux2Fbo.height == height && aux2Fbo.colorTargets == 1
      ensures old(deferredFbo) != null ==>
        deferredFbo == old(deferredFbo) && completeFbo == old(completeFbo) && ssaoFbo == old(ssaoFbo)
        && auxFbo == old(auxFbo) && aux2Fbo == old(aux2Fbo)
      ensures addDecal && old(decalDepthTexture) == null ==>
        fresh(decalDepthTexture) && decalDepthTexture.width == deferredFbo.width
        && decalDepthTexture.height == deferredFbo.height
      ensures !(addDecal && old(decalDepthTexture) == null) ==> decalDepthTexture == old(decalDepthTexture)
    {
      EnsureTargets(width, height);
      if addDecal && decalDepthTexture == null {
        EnsureDecalTexture();
      }
    }

    /** The first-use creation of the G-buffer and post-process targets at window size. */
    method EnsureTargets(width: nat, height: nat)
      modifies this`deferredFbo, this`completeFbo, this`ssaoFbo, this`auxFbo, this`aux2Fbo
      ensures deferredFbo != null
      ensures old(deferredFbo) == null ==>
        && fresh(deferredFbo) && deferredFbo.width == width && deferredFbo.height == height
        && deferredFbo.colorTargets == 4
        && fresh(completeFbo) && completeFbo.width == width && completeFbo.height == height
        && completeFbo.colorTargets == 2
        && fresh(ssaoFbo) && ssaoFbo.width == width && ssaoFbo.height == height && ssaoFbo.colorTargets == 1
        && fresh(auxFbo) && auxFbo.width == width && auxFbo.height == height && auxFbo.colorTargets == 2
        && fresh(aux2Fbo) && aux2Fbo.width == width && aux2Fbo.height == height && aux2Fbo.colorTargets == 1
      ensures old(deferredFbo) != null ==>
        deferredFbo == old(deferredFbo) && completeFbo == old(completeFbo) && ssaoFbo == old(ssaoFbo)
        && auxFbo == old(auxFbo) && aux2Fbo == old(aux2Fbo)
    {
      if deferredFbo == null {
        deferredFbo := new Fbo(width, height, 4);
        completeFbo := new Fbo(width, height, 2);
        ssaoFbo := new Fbo(width, height, 1);
        auxFbo := new Fbo(width, height, 2);
        aux2Fbo := new Fbo(width, height, 1);
      }
    }

    /** The decal's depth copy, at the G-buffer's size. */
    method EnsureDecalTexture()
      requires deferredFbo != null
      modifies this`decalDepthTexture
      ensures fresh(decalDepthTexture) && decalDepthTexture.width == deferredFbo.width
        && decalDepthTexture.height == deferredFbo.height
    {
      decalDepthTexture := new DepthTexture(deferredFbo.width, deferredFbo.height);
    }

    /** The passes of `renderMeshinDeferred` once its targets exist. */
    method ComposeDeferred(scene: Scene, frustum: (Matrix44, Node) -> bool, shaders: ShaderSet, distance: Vec3 -> real)
      returns (t: seq<Event>)
      requires PrefabsPresent(scene.entities)
      requires !showProperties && !(showIrradiance && probesTexture != null) ==> |scene.lights| > 0
      ensures t == DeferredFrame(scene, frustum, shaders, distance)
    {
      var geometry := GeometryPass(scene.entities, frustum, shaders);
      var tail := ComposeTail(scene, distance);
      assert geometry == [GBufferCleared] + SceneDeferred(scene.entities, frustum, probesTexture != null, shaders);
      t := geometry + tail;
    }

    /** The passes after the G-buffer fill: the decal, the occlusion pass, then the view. */
    method ComposeTail(scene: Scene, distance: Vec3 -> real) returns (tail: seq<Event>)
      requires !showProperties && !(showIrradiance && probesTexture != null) ==> |scene.lights| > 0
      ensures tail == DeferredTail(scene, distance)
    {
      var decal: seq<Event> := if addDecal then [DecalDraw] else [];
      var occlusion: seq<Event> := if computeAmbientOcclusion then [OcclusionDraw] else [];
      var view := ComposeView(scene, distance);
      tail := decal + occlusion + view;
    }

    /** The final view of the deferred frame. */
    method ComposeView(scene: Scene, distance: Vec3 -> real) returns (view: seq<Event>)
      requires !showProperties && !(showIrradiance && probesTexture != null) ==> |scene.lights| > 0
      ensures view == DeferredView(scene, distance)
    {
      if showProperties {
        view := [ShowGBuffers];
      } else if showIrradiance && probesTexture != null {
        view := [ShowProbesTexture];
      } else {
        view := ComposeLit(scene, distance);
      }
    }

    /** `renderSceneInDeferred`: the shadow phase, then the deferred frame. */
    method RenderSceneInDeferred(scene: Scene, frustum: (Matrix44, Node) -> bool, active: ActiveCamera,
                                 shaders: ShaderSet, distance: Vec3 -> real, width: nat, height: nat)
      returns (t: seq<Event>)
      requires PrefabsShadowWalkable(scene.entities)
      requires active.current != null || forall j :: 0 <= j < |scene.lights| ==> scene.lights[j].lightType == Omni
      requires !showProperties && !(showIrradiance && probesTexture != null) ==> |scene.lights| > 0
      modifies scene.lights`shadowFbo, scene.lights`camera, active`current
      modifies this`deferredFbo, this`completeFbo, this`ssaoFbo, this`auxFbo, this`aux2Fbo, this`decalDepthTexture
      ensures t == ShadowTrace(old(ShadowKeys(scene.lights)), old(SceneShadows(scene.entities))) + DeferredFrame(scene, frustum, shaders, distance)
      ensures forall j :: 0 <= j < |scene.lights| && scene.lights[j].lightType != Omni ==>
        scene.lights[j].shadowFbo != null
      ensures active.current == old(active.current)
    {
      var s := ShadowPass(scene, active);
      assert ShadowTargetsReady(scene.lights);
      var d := RenderMeshInDeferred(scene, frustum, shaders, distance, width, height);
      assert ShadowTargetsReady(scene.lights);
      t := s + d;
    }

    // ------------------------------------------------------------ irradiance

    /** `computeIrradiance`: fixes the lattice (start, end, 8x6x10), rebuilds the probe list
        in x-fastest order, captures each probe's coefficients at its position, creates the
        probe texture on first use and uploads the packed coefficients. */
    method ComputeIrradiance(capture: Vec3 -> SH)
      modifies this`irrFbo, this`startPos, this`endPos, this`dims, this`delta, this`probes,
               this`probesTexture, probesTexture
      ensures old(irrFbo) == null ==>
        fresh(irrFbo) && irrFbo.width == 64 && irrFbo.height == 64 && irrFbo.colorTargets == 1
      ensures old(irrFbo) != null ==> irrFbo == old(irrFbo)
      ensures startPos == LatticeStart && endPos == LatticeEnd && dims == LatticeDims
      ensures delta == Spacing(LatticeStart, LatticeEnd, LatticeDims)
      ensures probes == Captured(Layout(startPos, delta, dims), capture)
      ensures AllInRange(probes, dims)
      ensures probesTexture != null
      ensures old(probesTexture) != null ==> probesTexture == old(probesTexture)
      ensures old(probesTexture) == null ==>
        fresh(probesTexture) && probesTexture.columns == 9 && probesTexture.rows == |probes|
      ensures probesTexture.texels == Packed(probes, dims)
    {
      if irrFbo == null {
        irrFbo := new Fbo(64, 64, 1);
      }
      BuildLattice(capture);
      UploadProbes();
    }

    /** The fixed lattice and its probe list, in x-fastest order, each probe captured at its position. */
    method BuildLattice(capture: Vec3 -> SH)
      modifies this`startPos, this`endPos, this`dims, this`delta, this`probes
      ensures startPos == LatticeStart && endPos == LatticeEnd && dims == LatticeDims
      ensures delta == Spacing(LatticeStart, LatticeEnd, LatticeDims)
      ensures probes == Captured(Layout(startPos, delta, dims), capture)
      ensures AllInRange(probes, dims)
    {
      startPos := LatticeStart;
      endPos := LatticeEnd;
      dims := LatticeDims;
      delta := Spacing(startPos, endPos, dims);
      probes := LayOutProbes(startPos, delta, dims);
      probes := CaptureProbes(probes, capture);
      CapturedLayout(startPos, delta, dims, capture);
    }

    /** The probe texture, created on first use with one row of 9 coefficients per probe,
        receives the packed coefficients of the probe list. */
    method UploadProbes()
      requires AllInRange(probes, dims)
      modifies this`probesTexture, probesTexture
      ensures probesTexture != null
      ensures old(probesTexture) != null ==> probesTexture == old(probesTexture)
      ensures old(probesTexture) == null ==>
        fresh(probesTexture) && probesTexture.columns == 9 && probesTexture.rows == |probes|
      ensures probesTexture.texels == Packed(probes, dims)
    {
      if probesTexture == null {
        probesTexture := new ProbeTexture(9, |probes|);
      }
      var shData := PackProbes(probes, dims);
      probesTexture.Upload(shData);
    }

    /** `saveIrradiance`: the lattice header, with num_probes = dx*dy*dz, then the probes in order. */
    method SaveIrradiance(file: CacheStore)
      modifies file
      ensures file.contents == Some(SavedFile(startPos, endPos, dims, delta, probes))
      ensures file.contents.value.header.numProbes == Count(dims) && file.contents.value.records == probes
    {
      var header := Header(startPos, endPos, dims, delta, dims.x * dims.y * dims.z);
      file.contents := Some(CacheFile(header, probes));
    }

    /** `readIrradiance`, with the success value its declared result promises: false and no
        change without a file; otherwise the header is restored, the probe list resized to
        num_probes and overwritten by the stored records, and the packed coefficients
        uploaded. Packing writes each probe at its own index, so the loaded indices must lie
        in the stored lattice. */
    method ReadIrradiance(file: CacheStore) returns (ok: bool)
      requires file.contents.Some? ==>
        AllInRange(LoadedProbes(probes, file.contents.value), file.contents.value.header.dims)
      modifies this`startPos, this`endPos, this`dims, this`delta, this`probes,
               this`probesTexture, probesTexture
      ensures ok <==> file.contents.Some?
      ensures !ok ==>
        && startPos == old(startPos) && endPos == old(endPos) && dims == old(dims)
        && delta == old(delta) && probes == old(probes) && probesTexture == old(probesTexture)
        && (probesTexture != null ==> probesTexture.texels == old(probesTexture.texels))
      ensures ok ==>
        var f := file.contents.value;
        && startPos == f.header.start && endPos == f.header.end
        && dims == f.header.dims && delta == f.header.delta
        && probes == LoadedProbes(old(probes), f)
        && probesTexture != null
        && (old(probesTexture) != null ==> probesTexture == old(probesTexture))
        && (old(probesTexture) == null ==>
              fresh(probesTexture) && probesTexture.columns == 9 && probesTexture.rows == |probes|)
        && probesTexture.texels == Packed(probes, dims)
    {
      if file.contents.None? {
        return false;
      }
      var f := file.contents.value;
      var header := f.header;
      startPos := header.start;
      endPos := header.end;
      dims := header.dims;
      delta := header.delta;
      var numProbes := header.numProbes;
      probes := Resized(probes, numProbes);
      probes := ReadOver(probes, f.records);
      UploadProbes();
      ok := true;
    }
  }
}
