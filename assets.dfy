/** Prefab node graphs, meshes and materials as the renderer sees them.
    prefab.h, material.h and mesh.h are not part of this model: only the fields
    the renderer decides on are kept. */
module Assets {
  import opened Values

  /** A texture handle, identified by the path it was loaded from. */
  datatype TextureRef = TextureRef(path: string)

  datatype AlphaMode = NoAlpha | Mask | Blend

  /** `Mesh::createPlane(size)`, or a mesh loaded with its vertex count. */
  datatype Mesh = Plane(size: int) | Loaded(name: string, vertexCount: nat)

  /** `mesh->getNumVertices() != 0`; a plane always has its two triangles. */
  predicate HasVertices(m: Mesh)
  {
    match m
    case Plane(_) => true
    case Loaded(_, n) => n > 0
  }

  datatype Material = Material(
    alphaMode: AlphaMode,
    alphaCutoff: real,
    twoSided: bool,
    color: Vec4,
    colorTexture: Option<TextureRef>,
    normalTexture: Option<TextureRef>,
    metallicRoughnessTexture: Option<TextureRef>,
    emissiveTexture: Option<TextureRef>,
    emissiveFactor: Vec3,
    metallicFactor: real,
    roughnessFactor: real,
    textureRep: real)

  datatype Option<T> = None | Some(value: T)

  /** A freshly constructed `GTR::Material` (opaque, no textures, no emission). */
  const DefaultMaterial: Material :=
    Material(NoAlpha, 0.5, false, Vec4(1.0, 1.0, 1.0, 1.0), None, None, None, None, Zero3, 0.0, 1.0, 1.0)

  /** A node of a prefab graph: visibility, optional mesh and material, and ordered children. */
  datatype Node = Node(
    visible: bool,
    mesh: Option<Mesh>,
    material: Option<Material>,
    model: Matrix44,
    children: seq<Node>)

  /** A freshly constructed `GTR::Node`: visible, no mesh, no material, no children. */
  const DefaultNode: Node := Node(true, None, None, Identity44, [])

  datatype Prefab = Prefab(root: Node)
}
