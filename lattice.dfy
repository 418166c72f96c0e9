/** The irradiance probe lattice: integer dimensions, probe indices and the
    flattening `x + y*dx + z*dx*dy` that addresses a probe's texel. */
module Lattice {

  datatype Dims = Dims(x: nat, y: nat, z: nat)

  datatype Index3 = Index3(x: nat, y: nat, z: nat)

  /** Number of probes in a lattice: dx*dy*dz. */
  function Count(d: Dims): nat
  {
    d.x * d.y * d.z
  }

  predicate InRange(i: Index3, d: Dims)
  {
    i.x < d.x && i.y < d.y && i.z < d.z
  }

  /** The flattened address of a probe index. */
  function Flatten(i: Index3, d: Dims): nat
  {
    i.x + i.y * d.x + i.z * (d.x * d.y)
  }

  lemma MulLeft(a: nat, b: nat, c: nat)
    requires a <= b
    ensures a * c <= b * c
  {
  }

  /** a + d*q with a < d determines both a and q. */
  lemma Cancel(a1: nat, q1: nat, a2: nat, q2: nat, d: nat)
    requires a1 < d && a2 < d
    requires a1 + d * q1 == a2 + d * q2
    ensures a1 == a2 && q1 == q2
  {
    if q1 < q2 {
      MulLeft(q1 + 1, q2, d);
    } else if q2 < q1 {
      MulLeft(q2 + 1, q1, d);
    }
  }

  /** Every in-range index flattens into [0, dx*dy*dz). */
  lemma FlattenBound(i: Index3, d: Dims)
    requires InRange(i, d)
    ensures Flatten(i, d) < Count(d)
  {
    MulLeft(i.y, d.y - 1, d.x);
    MulLeft(i.z, d.z - 1, d.x * d.y);
    assert (d.y - 1) * d.x == d.x * d.y - d.x;
    assert (d.z - 1) * (d.x * d.y) == Count(d) - d.x * d.y;
  }

  /** Horner form of the flattening. */
  lemma FlattenNested(i: Index3, d: Dims)
    ensures Flatten(i, d) == i.x + d.x * (i.y + d.y * i.z)
  {
    calc {
      d.x * (i.y + d.y * i.z);
      d.x * i.y + d.x * (d.y * i.z);
      { assert d.x * (d.y * i.z) == (d.x * d.y) * i.z; }
      i.y * d.x + i.z * (d.x * d.y);
    }
  }

  /** Distinct in-range indices have distinct flattened addresses. */
  lemma FlattenInjective(i: Index3, j: Index3, d: Dims)
    requires InRange(i, d) && InRange(j, d)
    requires Flatten(i, d) == Flatten(j, d)
    ensures i == j
  {
    var mi := i.y + d.y * i.z;
    var mj := j.y + d.y * j.z;
    FlattenNested(i, d);
    FlattenNested(j, d);
    assert i.x + d.x * mi == j.x + d.x * mj;
    Cancel(i.x, mi, j.x, mj, d.x);
    assert i.y + d.y * i.z == j.y + d.y * j.z;
    Cancel(i.y, i.z, j.y, j.z, d.y);
  }

  /** The index whose flattening is k: every slot of [0, dx*dy*dz) is addressed. */
  function Unflatten(k: nat, d: Dims): (i: Index3)
    requires k < Count(d)
    ensures InRange(i, d) && Flatten(i, d) == k
  {
    PositiveDims(d.x, d.y, d.z);
    Digits(k, d.x, d.y, d.z);
    Index3(k % d.x, (k / d.x) % d.y, (k / d.x) / d.y)
  }

  /** A lattice holding any probe has no empty dimension. */
  lemma PositiveDims(x: nat, y: nat, z: nat)
    requires x * y * z > 0
    ensures x > 0 && y > 0
  {
    ZeroFactor(x, y, z);
  }

  lemma ZeroFactor(x: nat, y: nat, z: nat)
    ensures x == 0 || y == 0 ==> x * y * z == 0
  {
    if x == 0 || y == 0 {
      assert x * y == 0;
    }
  }

  /** The mixed-radix digits of k in radices (x, y, z) are in range and recompose to k. */
  lemma Digits(k: nat, x: nat, y: nat, z: nat)
    requires x > 0 && y > 0 && k < x * y * z
    ensures 0 <= k % x < x && 0 <= (k / x) % y < y && 0 <= (k / x) / y < z
    ensures k % x + ((k / x) % y) * x + ((k / x) / y) * (x * y) == k
  {
    var rest := k / x;
    assert x * y * z == x * (y * z);
    DivBound(k, x, y * z);
    DivBound(rest, y, z);
    Horner(k % x, rest % y, rest / y, x, y);
  }

  lemma Horner(a: nat, b: nat, c: nat, x: nat, y: nat)
    ensures a + x * (b + y * c) == a + b * x + c * (x * y)
  {
    assert x * (b + y * c) == x * b + x * (y * c);
    assert x * (y * c) == c * (x * y);
  }

  /** A quotient by n of a number below n*m is below m. */
  lemma DivBound(k: nat, n: nat, m: nat)
    requires n > 0 && k < n * m
    ensures 0 <= k % n < n && 0 <= k / n < m && k == k % n + n * (k / n)
  {
    if k / n >= m {
      MulLeft(m, k / n, n);
    }
  }

  /** Flattening and Unflatten are inverse on in-range indices. */
  lemma UnflattenOfFlatten(i: Index3, d: Dims)
    requires InRange(i, d)
    ensures Flatten(i, d) < Count(d) && Unflatten(Flatten(i, d), d) == i
  {
    FlattenBound(i, d);
    FlattenInjective(Unflatten(Flatten(i, d), d), i, d);
  }

  /** The index after i in x-fastest order: x first, then y, then z. */
  function NextIndex(i: Index3, d: Dims): Index3
  {
    if i.x + 1 < d.x then Index3(i.x + 1, i.y, i.z)
    else if i.y + 1 < d.y then Index3(0, i.y + 1, i.z)
    else Index3(0, 0, i.z + 1)
  }

  /** Stepping x-fastest moves the flattened address by one, staying in range up to the last slot. */
  lemma NextIndexFlatten(i: Index3, d: Dims)
    requires InRange(i, d) && Flatten(i, d) + 1 < Count(d)
    ensures InRange(NextIndex(i, d), d) && Flatten(NextIndex(i, d), d) == Flatten(i, d) + 1
  {
    var n := NextIndex(i, d);
    if i.x + 1 < d.x {
    } else if i.y + 1 < d.y {
      assert (i.y + 1) * d.x == i.y * d.x + d.x;
    } else {
      var p := d.x * d.y;
      assert i.y * d.x + d.x == p by {
        assert (i.y + 1) * d.x == i.y * d.x + d.x;
      }
      assert Flatten(i, d) + 1 == (i.z + 1) * p;
      assert Count(d) == d.z * p;
    }
  }

  /** The end of an x row is the start of the next row. */
  lemma FlattenRowEnd(y: nat, z: nat, d: Dims)
    ensures Flatten(Index3(d.x, y, z), d) == Flatten(Index3(0, y + 1, z), d)
  {
    assert (y + 1) * d.x == y * d.x + d.x;
  }

  /** The end of a y layer is the start of the next layer. */
  lemma FlattenLayerEnd(z: nat, d: Dims)
    ensures Flatten(Index3(0, d.y, z), d) == Flatten(Index3(0, 0, z + 1), d)
  {
    assert d.y * d.x == d.x * d.y;
    assert (z + 1) * (d.x * d.y) == z * (d.x * d.y) + d.x * d.y;
  }

  /** The start of the layer past the last one is the probe count. */
  lemma FlattenPastEnd(d: Dims)
    ensures Flatten(Index3(0, 0, d.z), d) == Count(d)
  {
    assert d.z * (d.x * d.y) == d.x * d.y * d.z;
  }
}
