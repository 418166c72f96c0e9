/** Reference traces of the scene walks: what the forward pass, the G-buffer pass and
    the shadow pass emit for a list of nodes and for the scene's entity list. */
module Frames {
  import opened Values
  import opened Ids
  import opened Assets
  import opened Traversal
  import opened Events
  import opened LightSchedule
  import opened Entities

  /** Which of the shaders a draw needs `Shader::Get` finds. */
  datatype ShaderSet = ShaderSet(forward: bool, multi: bool)

  /** A mesh draw goes ahead only with a mesh that has vertices and a material. */
  predicate Drawable(mesh: Option<Mesh>, material: Option<Material>)
  {
    mesh.Some? && HasVertices(mesh.value) && material.Some?
  }

  // ---------------------------------------------------------------- forward

  /** What `renderMeshWithMaterial` emits for one node. */
  function MeshForward(n: Node, ls: seq<LightRecord>, ambient: real, shaders: ShaderSet): seq<Event>
  {
    if Drawable(n.mesh, n.material) && shaders.forward
    then ForwardSchedule(n.mesh.value, n.material.value, ls, ambient)
    else []
  }

  /** The forward draws of a list of nodes, one after another. */
  function ForwardDraws(ns: seq<Node>, ls: seq<LightRecord>, ambient: real, shaders: ShaderSet): seq<Event>
  {
    if |ns| == 0 then []
    else ForwardDraws(ns[..|ns| - 1], ls, ambient, shaders) + MeshForward(ns[|ns| - 1], ls, ambient, shaders)
  }

  lemma {:induction false} ForwardDrawsAppend(ns: seq<Node>, ms: seq<Node>, ls: seq<LightRecord>,
                                              ambient: real, shaders: ShaderSet)
    ensures ForwardDraws(ns + ms, ls, ambient, shaders) ==
      ForwardDraws(ns, ls, ambient, shaders) + ForwardDraws(ms, ls, ambient, shaders)
    decreases |ms|
  {
    if |ms| == 0 {
      assert ns + ms == ns;
    } else {
      var k := |ms| - 1;
      assert (ns + ms)[..|ns + ms| - 1] == ns + ms[..k];
      ForwardDrawsAppend(ns, ms[..k], ls, ambient, shaders);
    }
  }

  /** A visible node's forward draws: its own mesh when it is drawn, then its children's. */
  lemma ForwardDrawsOfNode(n: Node, inFrustum: Node -> bool, ls: seq<LightRecord>, ambient: real, shaders: ShaderSet)
    requires n.visible
    ensures ForwardDraws(Drawn(n, inFrustum), ls, ambient, shaders) ==
      (if HasMeshAndMaterial(n) && inFrustum(n) then MeshForward(n, ls, ambient, shaders) else []) +
      ForwardDraws(DrawnAll(n.children, inFrustum), ls, ambient, shaders)
  {
    if HasMeshAndMaterial(n) && inFrustum(n) {
      ForwardDrawsOfDrawnNode(n, inFrustum, ls, ambient, shaders);
    } else {
      assert Drawn(n, inFrustum) == DrawnAll(n.children, inFrustum);
    }
  }

  lemma ForwardDrawsOfDrawnNode(n: Node, inFrustum: Node -> bool, ls: seq<LightRecord>, ambient: real, shaders: ShaderSet)
    requires n.visible && HasMeshAndMaterial(n) && inFrustum(n)
    ensures ForwardDraws(Drawn(n, inFrustum), ls, ambient, shaders) ==
      MeshForward(n, ls, ambient, shaders) + ForwardDraws(DrawnAll(n.children, inFrustum), ls, ambient, shaders)
  {
    var rest := DrawnAll(n.children, inFrustum);
    assert Drawn(n, inFrustum) == [n] + rest;
    ForwardDrawsAppend([n], rest, ls, ambient, shaders);
    ForwardDrawsSingle(n, ls, ambient, shaders);
  }

  lemma ForwardDrawsSingle(n: Node, ls: seq<LightRecord>, ambient: real, shaders: ShaderSet)
    ensures ForwardDraws([n], ls, ambient, shaders) == MeshForward(n, ls, ambient, shaders)
  {
    assert [n][..0] == [];
  }

  /** Walking one more child appends that child's forward draws. */
  lemma ForwardDrawsChildren(ns: seq<Node>, i: nat, inFrustum: Node -> bool, ls: seq<LightRecord>,
                             ambient: real, shaders: ShaderSet)
    requires i < |ns|
    ensures ForwardDraws(DrawnAll(ns[..i + 1], inFrustum), ls, ambient, shaders) ==
      ForwardDraws(DrawnAll(ns[..i], inFrustum), ls, ambient, shaders) +
      ForwardDraws(Drawn(ns[i], inFrustum), ls, ambient, shaders)
  {
    assert ns[..i + 1][..i] == ns[..i];
    ForwardDrawsAppend(DrawnAll(ns[..i], inFrustum), Drawn(ns[i], inFrustum), ls, ambient, shaders);
  }

  // ---------------------------------------------------------------- G-buffer

  /** Emissive binding of a G-buffer draw: the material's texture with a zero factor,
      else the black texture with the material's factor. */
  function GeometryEmissive(m: Material): Emissive
  {
    if m.emissiveTexture.Some? then Emissive(MaterialEmissive, Zero3)
    else Emissive(BlackEmissive, m.emissiveFactor)
  }

  /** Alpha threshold uploaded for a material: its cutoff in MASK mode, else 0. */
  function AlphaCutoff(m: Material): real
  {
    if m.alphaMode == Mask then m.alphaCutoff else 0.0
  }

  /** What `renderMeshWithMaterialDeferred` emits for one node. */
  function MeshDeferred(n: Node, probesBound: bool, shaders: ShaderSet): seq<Event>
  {
    if Drawable(n.mesh, n.material) && shaders.multi
    then [GeometryDraw(n.mesh.value, AlphaCutoff(n.material.value), GeometryEmissive(n.material.value), probesBound)]
    else []
  }

  function DeferredDraws(ns: seq<Node>, probesBound: bool, shaders: ShaderSet): seq<Event>
  {
    if |ns| == 0 then []
    else DeferredDraws(ns[..|ns| - 1], probesBound, shaders) + MeshDeferred(ns[|ns| - 1], probesBound, shaders)
  }

  lemma {:induction false} DeferredDrawsAppend(ns: seq<Node>, ms: seq<Node>, probesBound: bool, shaders: ShaderSet)
    ensures DeferredDraws(ns + ms, probesBound, shaders) ==
      DeferredDraws(ns, probesBound, shaders) + DeferredDraws(ms, probesBound, shaders)
    decreases |ms|
  {
    if |ms| == 0 {
      assert ns + ms == ns;
    } else {
      var k := |ms| - 1;
      assert (ns + ms)[..|ns + ms| - 1] == ns + ms[..k];
      DeferredDrawsAppend(ns, ms[..k], probesBound, shaders);
    }
  }

  /** A visible node's G-buffer draws: its own mesh when it is drawn, then its children's. */
  lemma DeferredDrawsOfNode(n: Node, inFrustum: Node -> bool, probesBound: bool, shaders: ShaderSet)
    requires n.visible
    ensures DeferredDraws(Drawn(n, inFrustum), probesBound, shaders) ==
      (if HasMeshAndMaterial(n) && inFrustum(n) then MeshDeferred(n, probesBound, shaders) else []) +
      DeferredDraws(DrawnAll(n.children, inFrustum), probesBound, shaders)
  {
    if HasMeshAndMaterial(n) && inFrustum(n) {
      DeferredDrawsOfDrawnNode(n, inFrustum, probesBound, shaders);
    } else {
      assert Drawn(n, inFrustum) == DrawnAll(n.children, inFrustum);
    }
  }

  lemma DeferredDrawsOfDrawnNode(n: Node, inFrustum: Node -> bool, probesBound: bool, shaders: ShaderSet)
    requires n.visible && HasMeshAndMaterial(n) && inFrustum(n)
    ensures DeferredDraws(Drawn(n, inFrustum), probesBound, shaders) ==
      MeshDeferred(n, probesBound, shaders) + DeferredDraws(DrawnAll(n.children, inFrustum), probesBound, shaders)
  {
    var rest := DrawnAll(n.children, inFrustum);
    assert Drawn(n, inFrustum) == [n] + rest;
    DeferredDrawsAppend([n], rest, probesBound, shaders);
    DeferredDrawsSingle(n, probesBound, shaders);
  }

  lemma DeferredDrawsSingle(n: Node, probesBound: bool, shaders: ShaderSet)
    ensures DeferredDraws([n], probesBound, shaders) == MeshDeferred(n, probesBound, shaders)
  {
    assert [n][..0] == [];
  }

  /** Walking one more child appends that child's G-buffer draws. */
  lemma DeferredDrawsChildren(ns: seq<Node>, i: nat, inFrustum: Node -> bool, probesBound: bool, shaders: ShaderSet)
    requires i < |ns|
    ensures DeferredDraws(DrawnAll(ns[..i + 1], inFrustum), probesBound, shaders) ==
      DeferredDraws(DrawnAll(ns[..i], inFrustum), probesBound, shaders) +
      DeferredDraws(Drawn(ns[i], inFrustum), probesBound, shaders)
  {
    assert ns[..i + 1][..i] == ns[..i];
    DeferredDrawsAppend(DrawnAll(ns[..i], inFrustum), Drawn(ns[i], inFrustum), probesBound, shaders);
  }

  /** The nodes of a list that a mesh draw accepts, in list order. */
  function DrawableNodes(ns: seq<Node>): (r: seq<Node>)
    ensures |r| <= |ns|
    ensures forall n :: n in r <==> n in ns && Drawable(n.mesh, n.material)
    ensures (forall k :: 0 <= k < |ns| ==> Drawable(ns[k].mesh, ns[k].material)) ==> r == ns
  {
    if |ns| == 0 then []
    else
      var init, last := ns[..|ns| - 1], ns[|ns| - 1];
      assert ns == init + [last];
      DrawableNodes(init) + (if Drawable(last.mesh, last.material) then [last] else [])
  }

  /** With the "multi" shader, the i-th G-buffer draw is that of the i-th drawable node. */
  lemma {:induction false} DeferredDrawsOfDrawable(ns: seq<Node>, probesBound: bool, shaders: ShaderSet)
    requires shaders.multi
    ensures var ds := DrawableNodes(ns);
      |DeferredDraws(ns, probesBound, shaders)| == |ds| &&
      forall k :: 0 <= k < |ds| ==>
        DeferredDraws(ns, probesBound, shaders)[k] ==
        GeometryDraw(ds[k].mesh.value, AlphaCutoff(ds[k].material.value), GeometryEmissive(ds[k].material.value), probesBound)
  {
    if |ns| > 0 {
      var init, last := ns[..|ns| - 1], ns[|ns| - 1];
      DeferredDrawsOfDrawable(init, probesBound, shaders);
      var t, ds := DeferredDraws(init, probesBound, shaders), DrawableNodes(init);
      if Drawable(last.mesh, last.material) {
        assert DeferredDraws(ns, probesBound, shaders) == t + [GeometryDraw(last.mesh.value,
          AlphaCutoff(last.material.value), GeometryEmissive(last.material.value), probesBound)];
        assert DrawableNodes(ns) == ds + [last];
      } else {
        assert DeferredDraws(ns, probesBound, shaders) == t;
        assert DrawableNodes(ns) == ds;
      }
    }
  }

  /** The G-buffer pass writes one draw per drawable node, in order, and nothing when
      the "multi" shader is missing; a list of drawable nodes gets one draw per node. */
  lemma {:induction false} DeferredDrawsShape(ns: seq<Node>, probesBound: bool, shaders: ShaderSet)
    ensures !shaders.multi ==> DeferredDraws(ns, probesBound, shaders) == []
    ensures shaders.multi ==> var ds := DrawableNodes(ns);
      |DeferredDraws(ns, probesBound, shaders)| == |ds| &&
      forall k :: 0 <= k < |ds| ==>
        DeferredDraws(ns, probesBound, shaders)[k] ==
        GeometryDraw(ds[k].mesh.value, AlphaCutoff(ds[k].material.value), GeometryEmissive(ds[k].material.value), probesBound)
    ensures (forall k :: 0 <= k < |ns| ==> Drawable(ns[k].mesh, ns[k].material)) && shaders.multi ==>
      |DeferredDraws(ns, probesBound, shaders)| == |ns| &&
      forall k :: 0 <= k < |ns| ==>
        DeferredDraws(ns, probesBound, shaders)[k] ==
        GeometryDraw(ns[k].mesh.value, AlphaCutoff(ns[k].material.value), GeometryEmissive(ns[k].material.value), probesBound)
  {
    if shaders.multi {
      DeferredDrawsOfDrawable(ns, probesBound, shaders);
      if forall k :: 0 <= k < |ns| ==> Drawable(ns[k].mesh, ns[k].material) {
        assert DrawableNodes(ns) == ns;
      }
    } else if |ns| > 0 {
      DeferredDrawsShape(ns[..|ns| - 1], probesBound, shaders);
    }
  }

  // ---------------------------------------------------------------- shadows

  /** One depth draw per node. */
  function ShadowDraws(ns: seq<Node>): seq<Event>
    requires forall k :: 0 <= k < |ns| ==> ns[k].mesh.Some?
  {
    seq(|ns|, k requires 0 <= k < |ns| => ShadowDraw(ns[k].mesh.value))
  }

  lemma ShadowDrawsAppend(ns: seq<Node>, ms: seq<Node>)
    requires forall k :: 0 <= k < |ns| ==> ns[k].mesh.Some?
    requires forall k :: 0 <= k < |ms| ==> ms[k].mesh.Some?
    ensures forall k :: 0 <= k < |ns + ms| ==> (ns + ms)[k].mesh.Some?
    ensures ShadowDraws(ns + ms) == ShadowDraws(ns) + ShadowDraws(ms)
  {
    assert forall k :: 0 <= k < |ns + ms| ==> (ns + ms)[k].mesh.Some? by {
      forall k | 0 <= k < |ns + ms|
        ensures (ns + ms)[k].mesh.Some?
      {
        if k >= |ns| { assert (ns + ms)[k] == ms[k - |ns|]; }
      }
    }
  }

  /** The shadow casters of a walkable graph all carry a mesh. */
  lemma {:induction false} CastersHaveMeshes(n: Node)
    requires ShadowWalkable(n)
    ensures forall k :: 0 <= k < |Casters(n)| ==> Casters(n)[k].mesh.Some?
    decreases n, 1
  {
    if |n.children| != 0 {
      CastersAllHaveMeshes(n.children);
    }
  }

  lemma {:induction false} CastersAllHaveMeshes(ns: seq<Node>)
    requires forall i :: 0 <= i < |ns| ==> ShadowWalkable(ns[i])
    ensures forall k :: 0 <= k < |CastersAll(ns)| ==> CastersAll(ns)[k].mesh.Some?
    decreases ns, 0
  {
    if |ns| > 0 {
      var init := ns[..|ns| - 1];
      CastersAllHaveMeshes(init);
      CastersHaveMeshes(ns[|ns| - 1]);
      var a: seq<Node> := CastersAll(init);
      var b: seq<Node> := Casters(ns[|ns| - 1]);
      forall k | 0 <= k < |a + b|
        ensures (a + b)[k].mesh.Some?
      {
        if k >= |a| { assert (a + b)[k] == b[k - |a|]; }
      }
    }
  }

  /** The depth draws of one prefab graph. */
  function GraphShadows(n: Node): seq<Event>
    requires ShadowWalkable(n)
  {
    CastersHaveMeshes(n);
    ShadowDraws(Casters(n))
  }

  // ---------------------------------------------------------------- entity lists

  /** Every entity tagged PREFAB carries a prefab (both walks dereference it). */
  predicate PrefabsPresent(es: seq<PrefabEntity>)
    reads es`kind, es`prefab
  {
    forall i :: 0 <= i < |es| ==> es[i].kind == PrefabKind ==> es[i].prefab.Some?
  }

  /** ... and the shadow pass can walk each prefab's graph. */
  ghost predicate PrefabsShadowWalkable(es: seq<PrefabEntity>)
    reads es`kind, es`prefab
  {
    PrefabsPresent(es) &&
    forall i :: 0 <= i < |es| ==> es[i].kind == PrefabKind ==> ShadowWalkable(es[i].prefab.value.root)
  }

  /** The frustum test for nodes of a prefab placed with model matrix m. */
  function PlacedTest(frustum: (Matrix44, Node) -> bool, m: Matrix44): Node -> bool
  {
    n => frustum(m, n)
  }

  /** The forward pass over an entity list: each prefab entity's graph in list order. */
  function SceneForward(es: seq<PrefabEntity>, frustum: (Matrix44, Node) -> bool,
                        ls: seq<LightRecord>, ambient: real, shaders: ShaderSet): seq<Event>
    reads es`kind, es`prefab, es`model
    requires PrefabsPresent(es)
  {
    if |es| == 0 then []
    else
      var e := es[|es| - 1];
      SceneForward(es[..|es| - 1], frustum, ls, ambient, shaders) +
      (if e.kind == PrefabKind
       then ForwardDraws(Drawn(e.prefab.value.root, PlacedTest(frustum, e.model)), ls, ambient, shaders)
       else [])
  }

  /** The G-buffer pass over an entity list. */
  function SceneDeferred(es: seq<PrefabEntity>, frustum: (Matrix44, Node) -> bool,
                         probesBound: bool, shaders: ShaderSet): seq<Event>
    reads es`kind, es`prefab, es`model
    requires PrefabsPresent(es)
  {
    if |es| == 0 then []
    else
      var e := es[|es| - 1];
      SceneDeferred(es[..|es| - 1], frustum, probesBound, shaders) +
      (if e.kind == PrefabKind
       then DeferredDraws(Drawn(e.prefab.value.root, PlacedTest(frustum, e.model)), probesBound, shaders)
       else [])
  }

  /** The depth draws of one shadow map: every prefab graph's opaque leaves, in list order. */
  function SceneShadows(es: seq<PrefabEntity>): seq<Event>
    reads es`kind, es`prefab
    requires PrefabsShadowWalkable(es)
  {
    if |es| == 0 then []
    else
      var e := es[|es| - 1];
      SceneShadows(es[..|es| - 1]) +
      (if e.kind == PrefabKind then GraphShadows(e.prefab.value.root) else [])
  }
}
