# Realtime 3D engine renderer: a Dafny model

This project models the decision logic of the renderer of a small OpenGL engine: a forward pipeline and a deferred pipeline; the shadow maps of spot and directional lights; an irradiance-probe lattice with a cache file; and the reflection-probe choice. It also models the scene's bookkeeping: the entity and light lists, id assignment, the light's setters and the floor prefab.

Every GPU call the renderer makes is an `Event`: a draw, a full-screen pass, a target bind, a marker. Each rendering method returns the trace of events it issues. Its contract ties that trace to a reference function of the inputs, and lemmas state what the reference function means:
- which lights are drawn, in which order, with which ambient, emissive, irradiance, blend flag and shader type code;
- which nodes of a prefab graph are drawn;
- which leaves cast shadows.

The renderer's state is a `class Renderer` whose methods update its fields:
- render targets and textures are created lazily;
- the probe list is cleared and refilled;
- the probe texture is uploaded.

A light's shadow target and camera are fields the shadow phase replaces. `Camera::current` is the `current` field of an `ActiveCamera` object.

Three things the renderer computes with floating point and the GPU are parameters:
- the frustum test, a predicate on a placed node;
- the camera-to-probe distance;
- the spherical-harmonics capture at a world position.

Floats are reals, and matrices are opaque values.

Modules, one per file, in dependency order:
- `values.dfy`:
  - `Values`: vectors, an opaque matrix and an opaque SH record;
  - `Ids`: the entity kind tag and the `unsigned int` id with its wrap-around.
- `assets.dfy` (`Assets`): meshes, materials, prefab node graphs.
- `gpu.dfy`:
  - `Cameras`: a camera's projection; the current camera;
  - `Gpu`: frame buffers and textures, as handles with their sizes.
- `light.dfy` (`Lights`), Light.cpp: the `Light` class.
- `scene.dfy`:
  - `Entities`, PrefabEntity.cpp;
  - `Scenes`, Scene.cpp.
- `lattice.dfy` (`Lattice`): probe dimensions, indices and the flattening `x + y*dx + z*dx*dy`.
- `traversal.dfy` (`Traversal`): the node lists that `renderNode` and `checkRendering` act on.
- `schedule.dfy`:
  - `Events`: the trace alphabet;
  - `LightSchedule`: the light passes of the forward and deferred loops.
- `frames.dfy` (`Frames`): reference traces of the walks over nodes and entities.
- `irradiance.dfy` (`Irradiance`): the probe layout, the packing, the cache file and the finding below.
- `renderer.dfy` (`Rendering`): the `Renderer` class and its passes.

`Entities.EntityIds` and `Lights.LightIds` are the same map over two element types. `PrefabEntity` and `Light` are separate classes here, standing for the shared `BaseEntity` part, so each list gets its own id function.

Notes on the trace and the state:
- Creating a target or a texture issues no event. Its effect shows in the renderer's or the light's fields.
- The light loops read each light's type, visibility and whether it has a shadow target (`Records`). Both loops read these after the shadow phase.
- The shadow trace is stated in terms of the ids, types and depth draws at entry to the shadow phase. The phase changes only shadow targets and cameras, so none of these change.
- The unchecked dereferences of the source become preconditions:
  - every prefab entity has its prefab;
  - every leaf `checkRendering` reaches has a material;
  - every opaque leaf has a mesh;
  - the lit deferred frame reads `lights[0]`, so the scene then has a light;
  - the packing loop writes `sh_data[index]`, so loaded probe indices lie inside the stored lattice.

Four behaviours of the code that the variable names or comments might suggest otherwise:
- Reflection choice: `nearestTexture` starts as the skybox. The loop over the probes replaces it by every probe with a cubemap closer than 105 (`renderer.cpp:778-786`). So the lit frame samples the *last* such probe in list order, not the nearest one.
- Shadow targets: both shadow loops call `createShadowmap` for every light (`renderer.cpp:335-337`, `454-457`). That function tests only the type (`renderer.cpp:372`), so a shadow map is built for every spot and directional light, visible or not.
- Light-volume blending: the omni loop sets no blend state of its own. The spot/directional loop starts unblended (`renderer.cpp:630`) and enables blending after each full-screen pass (`renderer.cpp:689`). The omni spheres (`renderer.cpp:741`) therefore draw blended exactly when at least one full-screen pass ran.
- Volumetric pass: it tests `lights[0]`'s shadow target whatever that light's type, although a comment calls it the directional light (`renderer.cpp:805`).

## Model

| member | source | states |
|---|---|---|
| Ids.Succ | CODE/src/Light.cpp:13 | the next id is the last id plus one in unsigned 32-bit arithmetic, wrapping to 0 after 2^32-1 |
| Ids.NextId | src/PrefabEntity.cpp:10-13 | a new id is 0 on an empty list, otherwise the successor of the last id |
| Ids.NextIdIsCount | src/PrefabEntity.cpp:10-13 | on a list whose ids equal their positions (mod 2^32), the next id is the list length (mod 2^32) |
| Ids.ConsecutiveAppend | src/Scene.cpp:13-16 | appending an element that takes the next id keeps the list's ids equal to their positions (mod 2^32) |
| Ids.ConsecutiveIncreasing | src/PrefabEntity.cpp:10-13 | on a list of at most 2^32 entries, consecutive ids are strictly increasing, hence distinct |
| Lights.LightIds | CODE/src/Light.cpp:10-13 | the id list has one entry per light, in list order |
| Lights.NextLightId | CODE/src/Light.cpp:10-13 | the id rule of `Ids.NextId` on the scene's light ids; while those ids are consecutive, a new light's id is the current number of lights (mod 2^32) |
| Lights.Light.constructor | CODE/src/Light.cpp:6-37 | type LIGHT, visible, the given color, type and intensity, yaw and pitch from the rotation, no shadow target, a fresh own camera, bias 0.02, spot angle 0, near 5, far 1000, max distance 1000, frustum 1000, spot exponent 3 |
| Lights.Light.SetColor | CODE/src/Light.cpp:39-45 | the getter returns what was set, and only the color changes |
| Lights.Light.SetIntensity | CODE/src/Light.cpp:51-57 | the getter returns what was set, and only the intensity changes |
| Lights.Light.SetMaxDist | CODE/src/Light.cpp:59-64 | the getter returns what was set, and only the maximum distance changes |
| Lights.Light.SetSpotAngle | CODE/src/Light.cpp:86-92 | the getter returns what was set, and only the spot cosine angle changes |
| Lights.Light.SetSpotExponent | CODE/src/Light.cpp:99-105 | the getter returns what was set, and only the spot exponent changes |
| Lights.Light.SetNearFar | CODE/src/Light.cpp:75-80 | both the light's near/far and its camera's near/far planes are set, and nothing else changes |
| Lights.Light.SetBias | CODE/src/Light.cpp:82-84 | the shadow bias is set, and nothing else changes |
| Entities.NextEntityId | src/PrefabEntity.cpp:10-13 | the id rule of `Ids.NextId` on the scene's entity ids; while those ids are consecutive, a new entity's id is the current number of entities (mod 2^32) |
| Entities.PrefabEntity.Default | src/PrefabEntity.cpp:5-15 | type PREFAB, visible, identity model, the next entity id, no prefab; the scene list is only read |
| Entities.PrefabEntity.constructor | src/PrefabEntity.cpp:17-29 | type PREFAB, visible, the given model, the next entity id, and `getPrefab` returns the given prefab |
| Entities.PrefabEntity.SetPrefab | src/PrefabEntity.cpp:31-38 | `getPrefab` returns the prefab set, and only the prefab changes |
| Entities.EntityIds | src/Scene.cpp:13-16 | the id list has one entry per entity, in list order |
| Scenes.FloorMaterial | src/Scene.cpp:26-32 | texture repeat 10, metallic 1, roughness 1, color (1,1,1,1), with the floor's color and normal textures |
| Scenes.Scene.constructor | src/Scene.cpp:9-11 | both lists start empty |
| Scenes.Scene.AddEntity | src/Scene.cpp:13-16 | the entity is appended, the lights are untouched, and an entity built with the next id keeps ids consecutive |
| Scenes.Scene.AddLight | src/Scene.cpp:18-20 | the light is appended, the entities are untouched, and a light built with the next id keeps the light ids consecutive |
| Scenes.Scene.CreateFloor | src/Scene.cpp:22-42 | exactly one fresh visible prefab entity is appended, with the identity model and the next id; its root holds a plane of the given size and the floor material; earlier entities are unchanged; ids stay consecutive |
| Cameras.Camera.SetPerspective | src/renderer.cpp:392 | the camera gets that perspective projection and its clip planes |
| Cameras.Camera.SetOrthographic | src/renderer.cpp:397 | the camera gets that orthographic projection and its clip planes |
| Cameras.Camera.Enable | src/renderer.cpp:410 | the camera becomes the current one |
| Gpu.ProbeTexture.Upload | src/renderer.cpp:1109 | the texture holds exactly the uploaded texels |
| Lattice.FlattenBound | src/renderer.cpp:1105 | every in-range index flattens into [0, dx*dy*dz) |
| Lattice.FlattenInjective | src/renderer.cpp:1105 | two in-range indices with the same flattened address are equal |
| Lattice.Unflatten | src/renderer.cpp:1105 | every address below dx*dy*dz is the flattening of an in-range index |
| Lattice.UnflattenOfFlatten | src/renderer.cpp:1105 | flattening and unflattening are inverse on in-range indices |
| Lattice.NextIndexFlatten | src/renderer.cpp:1049-1051 | stepping x first, then y, then z moves the flattened address by exactly one, staying in range |
| Traversal.DrawnMembers | src/renderer.cpp:124-150 | a node is drawn iff it is reached through visible nodes, has a mesh and a material, and passes the frustum test |
| Traversal.DrawnAllMembers | src/renderer.cpp:148-149 | the same for a list of children walked in order |
| Traversal.InvisiblePrunes | src/renderer.cpp:126-127 | an invisible node draws nothing, whatever lies below it |
| Traversal.CulledParentKeepsChildren | src/renderer.cpp:133-149 | a visible node that is culled, or lacks a mesh or material, still draws its children, in order |
| Traversal.DrawnAllAppend | src/renderer.cpp:148-149 | walking two lists of roots one after the other concatenates their draw lists |
| Traversal.CastersMembers | src/renderer.cpp:428-449 | the shadow walk draws exactly the opaque leaves below the node, visibility ignored |
| Traversal.CastersAllMembers | src/renderer.cpp:429-433 | the same for a list of children |
| Traversal.CastersAllAppend | src/renderer.cpp:430-432 | the shadow walk of two lists concatenates |
| LightSchedule.SelectedSpec | src/renderer.cpp:196-198 | the positions selected are exactly those of the lights satisfying the test, strictly increasing |
| LightSchedule.ForwardScheduleLights | src/renderer.cpp:196-319 | the forward loop issues one draw per visible light, for no other light, in list order |
| LightSchedule.ForwardScheduleFields | src/renderer.cpp:194-316 | draw k has the mesh, the shader type code (directional 0, omni 1, spot 2) and the light's shadow-target flag; only draw 0 is unblended with the scene ambient and the material emissive (texture, else white for a non-zero factor, else black); later draws have ambient 0, black emissive and blending |
| LightSchedule.FullScreenScheduleShape | src/renderer.cpp:630-692 | the first group is exactly the visible spot and directional lights in list order, with the type code and the shadow flag; only the first is unblended with the ambient and the G-buffer irradiance; later ones get ambient 0 and black irradiance |
| LightSchedule.VolumeScheduleShape | src/renderer.cpp:701-746 | the second group is exactly the visible omni lights in list order, with ambient 0, type code 1 and the given blend state |
| LightSchedule.ResolveScheduleShape | src/renderer.cpp:630-747 | all full-screen passes come before all light volumes; the volumes blend iff a full-screen pass ran; every visible light is drawn; ambient is injected only into the first full-screen pass, never without a visible spot or directional light |
| LightSchedule.ResolveCovers | src/renderer.cpp:636-746 | the two groups together cover every visible light |
| Frames.ForwardDrawsOfNode | src/renderer.cpp:124-150 | a visible node's forward draws are its own mesh's, when it is drawn, followed by its children's |
| Frames.DeferredDrawsOfNode | src/renderer.cpp:911-926 | a visible node's G-buffer draws are its own mesh's, when it is drawn, followed by its children's |
| Frames.DrawableNodes | src/renderer.cpp:928-930 | keeps exactly the nodes with a mesh that has vertices and a material, in order, and keeps a list of drawable nodes whole |
| Frames.DeferredDrawsShape | src/renderer.cpp:928-1026 | without the "multi" shader there is no draw; with it, the k-th G-buffer draw is that of the k-th drawable node, with its alpha cutoff and emissive binding, and there are no others; a list of drawable nodes gets one draw per node |
| Frames.CastersHaveMeshes | src/renderer.cpp:435-445 | on a graph the shadow walk can traverse, every shadow caster has a mesh |
| Irradiance.LayoutShape | src/renderer.cpp:1048-1057 | the layout holds dx*dy*dz probes; probe k's index is in range and flattens to k, with its world position; the first index is (0,0,0), and each next index steps x first, then y, then z |
| Irradiance.Packed | src/renderer.cpp:1100-1107 | the texel array has dx*dy*dz slots |
| Irradiance.PackedUntouched | src/renderer.cpp:1100-1107 | a slot no probe's index flattens to keeps the default coefficients |
| Irradiance.PackedLastWriter | src/renderer.cpp:1103-1107 | a slot holds the coefficients of the last probe whose index flattens to it |
| Irradiance.PackedLattice | src/renderer.cpp:1103-1107 | when probe j flattens to j, slot k holds exactly probe k's coefficients |
| Irradiance.CapturedLayout | src/renderer.cpp:1067-1089 | after capture, probe k still sits at slot k and its position, and carries the coefficients captured there |
| Irradiance.LatticeTexels | src/renderer.cpp:1048-1109 | texel k of the upload holds the coefficients captured at the world position of lattice slot k |
| Irradiance.Resized | src/renderer.cpp:1326 | resizing keeps the first n probes and appends default probes up to n |
| Irradiance.LoadedProbesShape | src/renderer.cpp:1323-1330 | after a read the list has num_probes entries: the file's records, then surviving old probes, then default probes |
| Irradiance.SaveLoadRoundTrip | src/renderer.cpp:1293-1330 | reading back a saved lattice restores start, end, dims, delta and the probe list exactly, whatever list was there before |
| Irradiance.ReadResultAsWrittenOnSuccess | src/renderer.cpp:1309-1361 | as written, a successful read does not return true |
| Rendering.ChosenEnvironmentSpec | src/renderer.cpp:778-786 | the skybox is chosen iff no probe is usable; a chosen probe is usable, and no later probe is |
| Rendering.ShadowKeys | src/renderer.cpp:337-339 | one id-and-type record per light, in list order |
| Rendering.ShadowTraceStep | src/renderer.cpp:337-339 | one more light extends the shadow trace by its bind and depth draws exactly when it is spot or directional |
| Rendering.PackProbes | src/renderer.cpp:1100-1107 | the packing loop produces the reference packed array |
| Rendering.LayOutProbes | src/renderer.cpp:1048-1057 | the three nested loops produce the reference layout |
| Rendering.CaptureProbes | src/renderer.cpp:1067-1089 | each probe's coefficients become those captured at its position, and nothing else changes |
| Rendering.Renderer.constructor | src/renderer.cpp:19-58 | no targets except a quarter-window volumetric one (aux and aux2 start absent); the default switches; the two reflection probes; tone-mapper parameters 1, 1, 1, 2.2 |
| Rendering.Renderer.GenerateReflectionProbes | src/renderer.cpp:1189-1202 | the two fixed probes, each with a cubemap, are appended |
| Rendering.Renderer.RenderMeshWithMaterial | src/renderer.cpp:153-327 | nothing without a mesh with vertices, a material or the shader; otherwise exactly the forward light schedule |
| Rendering.Renderer.RenderNode | src/renderer.cpp:124-150 | the trace is the forward draws of the nodes the culled, visibility-pruned walk lists |
| Rendering.Renderer.RenderChildren | src/renderer.cpp:148-149 | the trace is the children's forward draws, in order |
| Rendering.Renderer.RenderSceneForward | src/renderer.cpp:348-369 | clear, the skybox when loaded, then every prefab entity's forward draws in list order |
| Rendering.Renderer.ForwardEntities | src/renderer.cpp:361-368 | each prefab entity's graph, placed by its model and lit by the scene's lights, in list order; nothing for other entities |
| Rendering.Renderer.CheckRendering | src/renderer.cpp:428-449 | one depth draw per opaque leaf, depth-first |
| Rendering.Renderer.ShadowCasters | src/renderer.cpp:412-418 | every prefab entity's depth draws, in list order |
| Rendering.Renderer.CreateShadowmap | src/renderer.cpp:371-426 | an omni light changes nothing; for the others a missing target is created at 1024x1024 and an existing one kept, the light gets a fresh camera with its projection, the bind and depth draws are emitted, and the previous camera is current again |
| Rendering.Renderer.PrepareShadowmap | src/renderer.cpp:377-410 | the target exists afterwards; the light's fresh camera has the spot perspective or the directional orthographic projection and is current; the previous camera is returned |
| Rendering.Renderer.ShadowPass | src/renderer.cpp:337-339 | the trace is the shadow trace of the lights in list order; every spot and directional light has a target; the current camera is restored |
| Rendering.Renderer.RenderForward | src/renderer.cpp:329-345 | the shadow phase, then the forward scene pass |
| Rendering.Renderer.RenderMeshWithMaterialDeferred | src/renderer.cpp:928-1026 | nothing without a mesh with vertices, a material or the shader; otherwise one G-buffer draw with the mask cutoff, the emissive binding and whether the probe texture is bound |
| Rendering.Renderer.RenderNodeDeferred | src/renderer.cpp:911-926 | the trace is the G-buffer draws of the nodes the walk lists |
| Rendering.Renderer.RenderChildrenDeferred | src/renderer.cpp:924-925 | the children's G-buffer draws, in order |
| Rendering.Renderer.GeometryPass | src/renderer.cpp:482-522 | clear the G-buffer, then every prefab entity's G-buffer draws, in list order |
| Rendering.Renderer.FullScreenPasses | src/renderer.cpp:633-693 | the first lighting loop is exactly the full-screen schedule; it leaves blending on iff a pass ran |
| Rendering.Renderer.LightVolumes | src/renderer.cpp:701-747 | the second lighting loop is exactly the volume schedule for the blend state it starts in |
| Rendering.Renderer.ResolveLights | src/renderer.cpp:630-747 | both loops together are exactly the resolve schedule |
| Rendering.Renderer.SelectEnvironment | src/renderer.cpp:778-786 | the fold over the reflection probes yields the reference choice |
| Rendering.Renderer.BloomPasses | src/renderer.cpp:848-859 | ten blur iterations, numbered in order |
| Rendering.Renderer.ReflectionMarkers | src/renderer.cpp:891-892 | one marker per reflection probe, in order |
| Rendering.Renderer.IrradianceMarkers | src/renderer.cpp:898-899 | one marker per irradiance probe, in order |
| Rendering.Renderer.ComposeHead | src/renderer.cpp:617-792 | clear, skybox, both lighting loops, then the reflection pass when enabled and a skybox is loaded |
| Rendering.Renderer.ComposePost | src/renderer.cpp:795-884 | the occlusion view, the volumetric pass when the first light has a shadow target, glow, then presentation with or without the tone mapper |
| Rendering.Renderer.ComposeMarkers | src/renderer.cpp:888-900 | the reflection-probe markers, then the irradiance-probe markers, each when shown |
| Rendering.Renderer.ComposeLit | src/renderer.cpp:616-904 | the lit branch is the head, post effects and markers in that order |
| Rendering.Renderer.PrepareTargets | src/renderer.cpp:469-533 | on first use the G-buffer and post-process targets are created at window size and later kept; with decals on, the decal depth copy is created once at the G-buffer's size |
| Rendering.Renderer.EnsureTargets | src/renderer.cpp:469-480 | on first use the G-buffer (4 targets), complete (2), occlusion (1), aux (2) and aux2 (1) targets are created at window size; afterwards they are kept |
| Rendering.Renderer.EnsureDecalTexture | src/renderer.cpp:531-533 | the decal depth copy is created at the G-buffer's size |
| Rendering.Renderer.ComposeDeferred | src/renderer.cpp:482-904 | the G-buffer pass, the decal, the occlusion pass, then the G-buffer views, the probe texture or the lit frame |
| Rendering.Renderer.ComposeTail | src/renderer.cpp:528-904 | the decal when on, the occlusion pass when on, then the frame's view |
| Rendering.Renderer.ComposeView | src/renderer.cpp:593-904 | the G-buffer views when shown, else the probe texture when shown and present, else the lit frame |
| Rendering.Renderer.RenderMeshInDeferred | src/renderer.cpp:465-905 | the targets are created once and kept; the decal depth copy is created once when decals are on; the trace is the deferred frame |
| Rendering.Renderer.RenderSceneInDeferred | src/renderer.cpp:451-463 | the shadow phase, then the deferred frame |
| Rendering.Renderer.BuildLattice | src/renderer.cpp:1037-1089 | the fixed lattice from (-125, 11, -330) to (300, 230, 120) with 8x6x10 probes, its spacing, and the probe list laid out x fastest, each probe captured at its position and indexed inside the lattice |
| Rendering.Renderer.UploadProbes | src/renderer.cpp:1092-1116 | the probe texture is created once with 9 columns and one row per probe, then receives the packed coefficients |
| Rendering.Renderer.ComputeIrradiance | src/renderer.cpp:1030-1118 | the fixed 8x6x10 lattice and its spacing; the probe list rebuilt, x fastest, and captured; the 64x64 capture target and the probe texture created once; the upload is the packed coefficients |
| Rendering.Renderer.SaveIrradiance | src/renderer.cpp:1293-1307 | the file holds the lattice header with num_probes = dx*dy*dz, then the probes in list order |
| Rendering.Renderer.ReadIrradiance | src/renderer.cpp:1309-1361 | false and no change without a file; otherwise it returns true, restores the header, resizes and overwrites the probe list from the records, creates the texture once and uploads the packed coefficients |

## Left out

- OpenGL state, shader lookup and uniform uploads, viewports, `toViewport`, depth and blend toggles other than the blend flag of a light pass: foreign calls; each pass is one trace event.
- Matrices, `getGlobalMatrix`, `transformBoundingBox` and the frustum test: floating-point geometry; the test is a parameter.
- Traversal.Drawn: the culling test sees only the entity's model matrix and the node value (`PlacedTest`). It does not see the ancestors' transforms that `getGlobalMatrix(true)` folds into the node's world matrix (`renderer.cpp:129-133`). So two equal subtrees under different parents get the same verdict in the model. Membership lemmas such as `DrawnMembers` speak of node values, so they do not tell such copies apart either.
- `computeSH` and the six face renders per probe: GPU capture; the capture is a parameter from world position to coefficients.
- Probe positions and the lattice spacing are computed over reals without rounding.
- `generateSpherePoints`: random numbers and trigonometry. Only every third point is filled (renderer.cpp:1150).
- Tone-mapper parameter arithmetic, the spot field of view `acos(...)`, shadow-bias scaling: float numerics.
- The shadow camera's look-at and the field of view of its perspective: matrix math.
- `CubemapFromHDRE`, `computeReflections`, `renderReflectionProbe`, `renderProbe`, `renderSkybox`'s draw: asset loading and GPU work. Each is at most one marker or draw event, and whether the HDRE loaded is a constructor argument.
- `renderInMenu` and `Light::renderinMenu`: user interface.
- `Light::renderSphere`, `setDirection`, `setPosition`/`setPos`: GL and matrix math.
- CODE/src/application.cpp and CODE/src/BaseEntity.cpp: the window, input and frame loop; two field initialisations and a matrix translate.
- camera.h, fbo.h, texture.h, prefab.h, material.h and mesh.h are not part of this model. A camera keeps only its projection and clip planes. Targets and textures keep only their sizes, and the probe texture its texels.
- Raw `fwrite`/`fread` of structs: the cache file is a header and a list of probe records. Rendering.Renderer.SaveIrradiance always yields the saved file. The source does not check `fopen` and writes from `&(probes[0])` (`renderer.cpp:1302-1304`), so an unwritable path or an empty probe list is undefined behaviour there, and the model does not capture it.
- Rendering.Renderer.ComputeIrradiance: the capture loop enables a stack-local camera (`renderer.cpp:1062-1078`), which leaves `Camera::current` pointing at it after the function returns. The model does not touch the active camera. `Application::render` re-enables the main camera every frame (`CODE/src/application.cpp:145`).
- The `PrefabEntity` each entity loop allocates and leaks, and the unfreed cameras: memory leaks with no observable effect in the model.
- `aux` and `aux2` are never initialised by the constructor: the model starts them as absent.
- `num_probes` is a signed 32-bit int and the dims and indices are float vectors: the model uses naturals, as the lattice only holds non-negative integer values.
- The forward shader uploads the length of the emissive factor, and the white texture is chosen for a length above zero: stated as "factor is not the zero vector", which is equivalent.
- Rendering.Renderer.ShadowPass: does not state, per light, that an existing target is kept and an omni light left untouched in the loop's postcondition; CreateShadowmap states both for each call.
- Lights.Light getters: plain field reads with no contract of their own; each setter's contract states the round trip through its getter.

## Findings

| source | as written | input that shows it | evidently intended | confidence | as-written member | corrected member |
|---|---|---|---|---|---|---|
| src/renderer.cpp:1309-1361 | `readIrradiance` returns false when the file cannot be opened, but on success control reaches the end of the `bool` function without a return statement, so the caller receives an undefined value | the file `data/irradiance.bin` exists and opens | return true after loading the lattice | not executed | Irradiance.ReadResultAsWritten, Irradiance.ReadResultAsWrittenOnSuccess | Rendering.Renderer.ReadIrradiance |
