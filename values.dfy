/** Plain value types shared by the renderer model: vectors, matrices and
    spherical-harmonics records. Floats are modelled as reals (no rounding). */
module Values {

  datatype Vec2 = Vec2(x: real, y: real)

  datatype Vec3 = Vec3(x: real, y: real, z: real)

  datatype Vec4 = Vec4(x: real, y: real, z: real, w: real)

  const Zero3: Vec3 := Vec3(0.0, 0.0, 0.0)

  function Add3(a: Vec3, b: Vec3): Vec3
  {
    Vec3(a.x + b.x, a.y + b.y, a.z + b.z)
  }

  function Sub3(a: Vec3, b: Vec3): Vec3
  {
    Vec3(a.x - b.x, a.y - b.y, a.z - b.z)
  }

  /** Component-wise product, as `Vector3 * Vector3` in the framework. */
  function Mul3(a: Vec3, b: Vec3): Vec3
  {
    Vec3(a.x * b.x, a.y * b.y, a.z * b.z)
  }

  /** A 4x4 matrix, kept opaque: the model never computes with matrices. */
  datatype Matrix44 = Matrix44(m: seq<real>)

  const Identity44: Matrix44 :=
    Matrix44([1.0, 0.0, 0.0, 0.0,
              0.0, 1.0, 0.0, 0.0,
              0.0, 0.0, 1.0, 0.0,
              0.0, 0.0, 0.0, 1.0])

  /** Nine RGB spherical-harmonics coefficients of one probe (27 floats), opaque. */
  datatype SH = SH(coeffs: seq<real>)

  /** The value a default-constructed SphericalHarmonics slot holds. */
  const BlankSH: SH := SH([0.0, 0.0, 0.0, 0.0, 0.0, 0.0, 0.0, 0.0, 0.0,
                                0.0, 0.0, 0.0, 0.0, 0.0, 0.0, 0.0, 0.0, 0.0,
                                0.0, 0.0, 0.0, 0.0, 0.0, 0.0, 0.0, 0.0, 0.0])
}

/** BaseEntity's `type` tag and its `unsigned int` id (BaseEntity.h). */
module Ids {

  datatype EntityKind = BaseNode | PrefabKind | LightKind

  const U32: nat := 0x1_0000_0000

  type u32 = x: nat | x < U32

  /** `last + 1` in unsigned 32-bit arithmetic. */
  function Succ(last: u32): (r: u32)
    ensures last < U32 - 1 ==> r == last + 1
    ensures last == U32 - 1 ==> r == 0
  {
    (last + 1) % U32
  }

  /** The id a new entity takes: 0 for an empty list, otherwise the last id plus one. */
  function NextId(ids: seq<u32>): (r: u32)
    ensures |ids| == 0 ==> r == 0
    ensures |ids| > 0 ==> r == Succ(ids[|ids| - 1])
  {
    if |ids| == 0 then 0 else Succ(ids[|ids| - 1])
  }

  /** Ids 0, 1, 2, ... along the list, modulo 2^32. */
  ghost predicate Consecutive(ids: seq<u32>)
  {
    forall i :: 0 <= i < |ids| ==> ids[i] == i % U32
  }

  /** On a consecutive list the next id is the list's length (modulo 2^32). */
  lemma NextIdIsCount(ids: seq<u32>)
    ensures Consecutive(ids) ==> NextId(ids) == |ids| % U32
  {
    var n := |ids|;
    if Consecutive(ids) && n > 0 {
      var last := ids[n - 1];
      assert last == (n - 1) % U32;
      if last < U32 - 1 {
        assert (n - 1) % U32 + 1 == n % U32;
      } else {
        assert n % U32 == 0;
      }
    }
  }

  /** Appending an element that takes NextId keeps the ids consecutive. */
  lemma ConsecutiveAppend(ids: seq<u32>)
    requires Consecutive(ids)
    ensures Consecutive(ids + [NextId(ids)])
  {
    var n := |ids|;
    NextIdIsCount(ids);
    var s := ids + [NextId(ids)];
    forall i | 0 <= i < |s|
      ensures s[i] == i % U32
    {
      if i < n { assert s[i] == ids[i]; }
    }
  }

  /** While the list is no longer than 2^32, consecutive ids are strictly increasing and so distinct. */
  lemma ConsecutiveIncreasing(ids: seq<u32>, i: nat, j: nat)
    requires Consecutive(ids) && |ids| <= U32
    requires i < j < |ids|
    ensures ids[i] < ids[j]
  {
    assert ids[i] == i && ids[j] == j;
  }
}
