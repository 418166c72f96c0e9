/** The two node-graph walks of the renderer, as the list of nodes they act on:
    `renderNode`/`renderNodeDeferred` (culled, visibility-pruned) and the shadow
    pass's `checkRendering` (opaque leaves, no visibility test). */
module Traversal {
  import opened Assets

  /** A node with both a mesh and a material is a draw candidate. */
  predicate HasMeshAndMaterial(n: Node)
  {
    n.mesh.Some? && n.material.Some?
  }

  /** Nodes whose mesh is rendered, depth-first, parent before children, children in order.
      An invisible node prunes its subtree; a culled node still lets its children through. */
  function Drawn(n: Node, inFrustum: Node -> bool): seq<Node>
    decreases n, 1
  {
    if !n.visible then []
    else (if HasMeshAndMaterial(n) && inFrustum(n) then [n] else []) + DrawnAll(n.children, inFrustum)
  }

  function DrawnAll(ns: seq<Node>, inFrustum: Node -> bool): seq<Node>
    decreases ns, 0
  {
    if |ns| == 0 then [] else DrawnAll(ns[..|ns| - 1], inFrustum) + Drawn(ns[|ns| - 1], inFrustum)
  }

  /** m lies in n's subtree on a path of visible nodes (n and m included). */
  ghost predicate ReachesVisibly(n: Node, m: Node)
    decreases n
  {
    n.visible && (m == n || exists i :: 0 <= i < |n.children| && ReachesVisibly(n.children[i], m))
  }

  /** A node is drawn iff it is reached through visible nodes, has mesh and material,
      and passes the frustum test. */
  lemma {:induction false} DrawnMembers(n: Node, inFrustum: Node -> bool, m: Node)
    ensures m in Drawn(n, inFrustum) <==> ReachesVisibly(n, m) && HasMeshAndMaterial(m) && inFrustum(m)
    decreases n, 1
  {
    if n.visible {
      DrawnAllMembers(n.children, inFrustum, m);
    }
  }

  lemma {:induction false} DrawnAllMembers(ns: seq<Node>, inFrustum: Node -> bool, m: Node)
    ensures m in DrawnAll(ns, inFrustum) <==>
      (exists i :: 0 <= i < |ns| && ReachesVisibly(ns[i], m)) && HasMeshAndMaterial(m) && inFrustum(m)
    decreases ns, 0
  {
    if |ns| > 0 {
      var k := |ns| - 1;
      var init := ns[..k];
      DrawnAllMembers(init, inFrustum, m);
      DrawnMembers(ns[k], inFrustum, m);
      if exists i :: 0 <= i < |ns| && ReachesVisibly(ns[i], m) {
        var i :| 0 <= i < |ns| && ReachesVisibly(ns[i], m);
        if i < k { assert init[i] == ns[i]; }
      }
      if exists i :: 0 <= i < |init| && ReachesVisibly(init[i], m) {
        var i :| 0 <= i < |init| && ReachesVisibly(init[i], m);
        assert ns[i] == init[i];
      }
    }
  }

  /** An invisible node contributes nothing, whatever lies below it. */
  lemma InvisiblePrunes(n: Node, inFrustum: Node -> bool)
    requires !n.visible
    ensures Drawn(n, inFrustum) == []
  {
  }

  /** A visible node that is culled (or has no mesh or material) still draws its children, in order. */
  lemma CulledParentKeepsChildren(n: Node, inFrustum: Node -> bool)
    requires n.visible && !(HasMeshAndMaterial(n) && inFrustum(n))
    ensures Drawn(n, inFrustum) == DrawnAll(n.children, inFrustum)
  {
  }

  /** Walking a list of roots one after another concatenates their draw lists. */
  lemma {:induction false} DrawnAllAppend(ns: seq<Node>, ms: seq<Node>, inFrustum: Node -> bool)
    ensures DrawnAll(ns + ms, inFrustum) == DrawnAll(ns, inFrustum) + DrawnAll(ms, inFrustum)
    decreases |ms|
  {
    if |ms| == 0 {
      assert ns + ms == ns;
    } else {
      var k := |ms| - 1;
      var front := ns + ms[..k];
      assert (ns + ms)[..|ns + ms| - 1] == front;
      assert (ns + ms)[|ns + ms| - 1] == ms[k];
      assert DrawnAll(ns + ms, inFrustum) == DrawnAll(front, inFrustum) + Drawn(ms[k], inFrustum);
      DrawnAllAppend(ns, ms[..k], inFrustum);
      assert DrawnAll(ms, inFrustum) == DrawnAll(ms[..k], inFrustum) + Drawn(ms[k], inFrustum);
    }
  }

  // ---------------------------------------------------------------- shadow pass

  /** What `checkRendering` dereferences: every leaf has a material, and every
      opaque leaf has a mesh. */
  ghost predicate ShadowWalkable(n: Node)
    decreases n
  {
    if |n.children| != 0 then forall i :: 0 <= i < |n.children| ==> ShadowWalkable(n.children[i])
    else n.material.Some? && (n.material.value.alphaMode == NoAlpha ==> n.mesh.Some?)
  }

  predicate IsOpaqueLeaf(n: Node)
  {
    |n.children| == 0 && n.material.Some? && n.material.value.alphaMode == NoAlpha
  }

  /** Nodes drawn into a shadow map: the opaque leaves, depth-first in child order. */
  function Casters(n: Node): seq<Node>
    decreases n, 1
  {
    if |n.children| != 0 then CastersAll(n.children)
    else if IsOpaqueLeaf(n) then [n]
    else []
  }

  function CastersAll(ns: seq<Node>): seq<Node>
    decreases ns, 0
  {
    if |ns| == 0 then [] else CastersAll(ns[..|ns| - 1]) + Casters(ns[|ns| - 1])
  }

  /** m is n or a descendant of n, visible or not. */
  ghost predicate Below(n: Node, m: Node)
    decreases n
  {
    m == n || exists i :: 0 <= i < |n.children| && Below(n.children[i], m)
  }

  /** The shadow pass draws exactly the opaque leaves of the graph; visibility plays no part. */
  lemma {:induction false} CastersMembers(n: Node, m: Node)
    ensures m in Casters(n) <==> Below(n, m) && IsOpaqueLeaf(m)
    decreases n, 1
  {
    if |n.children| != 0 {
      CastersAllMembers(n.children, m);
      if m == n {
        assert !IsOpaqueLeaf(m);
      }
    }
  }

  lemma {:induction false} CastersAllMembers(ns: seq<Node>, m: Node)
    ensures m in CastersAll(ns) <==> (exists i :: 0 <= i < |ns| && Below(ns[i], m)) && IsOpaqueLeaf(m)
    decreases ns, 0
  {
    if |ns| > 0 {
      var k := |ns| - 1;
      var init := ns[..k];
      CastersAllMembers(init, m);
      CastersMembers(ns[k], m);
      if exists i :: 0 <= i < |ns| && Below(ns[i], m) {
        var i :| 0 <= i < |ns| && Below(ns[i], m);
        if i < k { assert init[i] == ns[i]; }
      }
      if exists i :: 0 <= i < |init| && Below(init[i], m) {
        var i :| 0 <= i < |init| && Below(init[i], m);
        assert ns[i] == init[i];
      }
    }
  }

  lemma {:induction false} CastersAllAppend(ns: seq<Node>, ms: seq<Node>)
    ensures CastersAll(ns + ms) == CastersAll(ns) + CastersAll(ms)
    decreases |ms|
  {
    if |ms| == 0 {
      assert ns + ms == ns;
    } else {
      var k := |ms| - 1;
      assert (ns + ms)[..|ns + ms| - 1] == ns + ms[..k];
      CastersAllAppend(ns, ms[..k]);
    }
  }
}
