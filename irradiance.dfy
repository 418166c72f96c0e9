/** The irradiance probes: the lattice `computeIrradiance` lays out, the packing of
    their coefficients into one texel per lattice slot, and the cache file written by
    `saveIrradiance` and read back by `readIrradiance`. */
module Irradiance {
  import opened Values
  import opened Lattice

  /** `sProbe`: lattice index, world position and captured coefficients. */
  datatype Probe = Probe(index: Index3, pos: Vec3, sh: SH)

  /** The value-initialised probe that growing the probe list appends. */
  const DefaultProbe: Probe := Probe(Index3(0, 0, 0), Zero3, BlankSH)

  /** `sIrrHeader`. */
  datatype Header = Header(start: Vec3, end: Vec3, dims: Dims, delta: Vec3, numProbes: nat)

  /** The irradiance cache file, as a header followed by probe records. */
  datatype CacheFile = CacheFile(header: Header, records: seq<Probe>)

  /** The fixed lattice `computeIrradiance` sets up. */
  const LatticeStart: Vec3 := Vec3(-125.0, 11.0, -330.0)
  const LatticeEnd: Vec3 := Vec3(300.0, 230.0, 120.0)
  const LatticeDims: Dims := Dims(8, 6, 10)

  /** Distance between neighbouring probes along each axis. */
  function Spacing(start: Vec3, end: Vec3, d: Dims): Vec3
    requires d.x > 1 && d.y > 1 && d.z > 1
  {
    var span := Sub3(end, start);
    Vec3(span.x / (d.x - 1) as real, span.y / (d.y - 1) as real, span.z / (d.z - 1) as real)
  }

  /** World position of the probe with index i. */
  function ProbePosition(start: Vec3, delta: Vec3, i: Index3): Vec3
  {
    Add3(start, Mul3(delta, Vec3(i.x as real, i.y as real, i.z as real)))
  }

  /** The probe pushed for lattice slot k, before its coefficients are captured. */
  function LayoutProbe(start: Vec3, delta: Vec3, d: Dims, k: nat): Probe
    requires k < Count(d)
  {
    var i := Unflatten(k, d);
    Probe(i, ProbePosition(start, delta, i), BlankSH)
  }

  /** The probe list `computeIrradiance` lays out: one probe per lattice slot, slot order. */
  function Layout(start: Vec3, delta: Vec3, d: Dims): seq<Probe>
  {
    seq(Count(d), k requires 0 <= k < Count(d) => LayoutProbe(start, delta, d, k))
  }

  /** ps is a prefix of the laid-out list. */
  predicate LaidOut(ps: seq<Probe>, start: Vec3, delta: Vec3, d: Dims)
  {
    |ps| <= Count(d) && forall k :: 0 <= k < |ps| ==> ps[k] == LayoutProbe(start, delta, d, k)
  }

  /** Pushing the probe of the next slot extends the prefix. */
  lemma LaidOutPush(ps: seq<Probe>, start: Vec3, delta: Vec3, d: Dims, i: Index3)
    requires LaidOut(ps, start, delta, d) && InRange(i, d) && Flatten(i, d) == |ps|
    ensures LaidOut(ps + [Probe(i, ProbePosition(start, delta, i), BlankSH)], start, delta, d)
  {
    UnflattenOfFlatten(i, d);
  }

  /** A full-length prefix is the whole laid-out list. */
  lemma LaidOutComplete(ps: seq<Probe>, start: Vec3, delta: Vec3, d: Dims)
    requires LaidOut(ps, start, delta, d) && |ps| == Count(d)
    ensures ps == Layout(start, delta, d)
  {
  }

  /** The probe list after every probe's coefficients have been captured at its position. */
  function Captured(ps: seq<Probe>, capture: Vec3 -> SH): seq<Probe>
  {
    seq(|ps|, k requires 0 <= k < |ps| => ps[k].(sh := capture(ps[k].pos)))
  }

  /** The laid-out list holds dx*dy*dz probes; probe k has an in-range index flattening
      to k, so the indices are distinct; the first is (0,0,0) and each next index steps
      x first, then y, then z. */
  lemma {:induction false} LayoutShape(start: Vec3, delta: Vec3, d: Dims)
    ensures var ps := Layout(start, delta, d);
      && |ps| == Count(d)
      && (forall k :: 0 <= k < |ps| ==>
            InRange(ps[k].index, d) && Flatten(ps[k].index, d) == k
            && ps[k].pos == ProbePosition(start, delta, ps[k].index))
      && (|ps| > 0 ==> ps[0].index == Index3(0, 0, 0))
      && (forall k :: 0 <= k < |ps| - 1 ==> ps[k + 1].index == NextIndex(ps[k].index, d))
  {
    var ps := Layout(start, delta, d);
    if |ps| > 0 {
      UnflattenOfFlatten(Index3(0, 0, 0), d);
    }
    forall k | 0 <= k < |ps| - 1
      ensures ps[k + 1].index == NextIndex(ps[k].index, d)
    {
      NextIndexFlatten(ps[k].index, d);
      UnflattenOfFlatten(NextIndex(ps[k].index, d), d);
    }
  }

  predicate AllInRange(ps: seq<Probe>, d: Dims)
  {
    forall j :: 0 <= j < |ps| ==> InRange(ps[j].index, d)
  }

  /** The texel array the packing loop fills: dx*dy*dz default slots, then each probe
      in list order writes its coefficients at its flattened index. */
  function Packed(ps: seq<Probe>, d: Dims): (r: seq<SH>)
    requires AllInRange(ps, d)
    ensures |r| == Count(d)
  {
    if |ps| == 0 then seq(Count(d), k => BlankSH)
    else
      var last := ps[|ps| - 1];
      FlattenBound(last.index, d);
      Packed(ps[..|ps| - 1], d)[Flatten(last.index, d) := last.sh]
  }

  /** Dropping the last probe keeps every index in range. */
  lemma InitInRange(ps: seq<Probe>, d: Dims)
    requires AllInRange(ps, d) && |ps| > 0
    ensures AllInRange(ps[..|ps| - 1], d)
  {
    var init := ps[..|ps| - 1];
    forall j | 0 <= j < |init|
      ensures InRange(init[j].index, d)
    {
      assert init[j] == ps[j];
    }
  }

  /** A slot no probe's index flattens to keeps the default coefficients. */
  lemma {:induction false} PackedUntouched(ps: seq<Probe>, d: Dims, k: nat)
    requires AllInRange(ps, d) && k < Count(d)
    requires forall j :: 0 <= j < |ps| ==> Flatten(ps[j].index, d) != k
    ensures Packed(ps, d)[k] == BlankSH
  {
    if |ps| > 0 {
      var init := ps[..|ps| - 1];
      InitInRange(ps, d);
      forall j | 0 <= j < |init|
        ensures Flatten(init[j].index, d) != k
      {
        assert init[j] == ps[j];
      }
      PackedUntouched(init, d, k);
    }
  }

  /** A slot holds the coefficients of the last probe whose index flattens to it. */
  lemma {:induction false} PackedLastWriter(ps: seq<Probe>, d: Dims, j: nat, k: nat)
    requires AllInRange(ps, d) && j < |ps| && k < Count(d) && Flatten(ps[j].index, d) == k
    requires forall j2 :: j < j2 < |ps| ==> Flatten(ps[j2].index, d) != k
    ensures Packed(ps, d)[k] == ps[j].sh
  {
    if j < |ps| - 1 {
      var init := ps[..|ps| - 1];
      InitInRange(ps, d);
      assert init[j] == ps[j];
      forall j2 | j < j2 < |init|
        ensures Flatten(init[j2].index, d) != k
      {
        assert init[j2] == ps[j2];
      }
      PackedLastWriter(init, d, j, k);
    }
  }

  /** On a laid-out list, where probe j's index flattens to j, slot k holds exactly the
      coefficients of probe k. */
  lemma PackedLattice(ps: seq<Probe>, d: Dims)
    requires AllInRange(ps, d) && |ps| == Count(d)
    requires forall j :: 0 <= j < |ps| ==> Flatten(ps[j].index, d) == j
    ensures forall k :: 0 <= k < Count(d) ==> Packed(ps, d)[k] == ps[k].sh
  {
    forall k | 0 <= k < Count(d)
      ensures Packed(ps, d)[k] == ps[k].sh
    {
      PackedLastWriter(ps, d, k, k);
    }
  }

  /** After capture, probe k still sits at lattice slot k and its position, and carries the
      coefficients captured there. */
  lemma {:induction false} CapturedLayout(start: Vec3, delta: Vec3, d: Dims, capture: Vec3 -> SH)
    ensures var ps := Captured(Layout(start, delta, d), capture);
      && |ps| == Count(d)
      && AllInRange(ps, d)
      && (forall k :: 0 <= k < |ps| ==>
            Flatten(ps[k].index, d) == k
            && ps[k].pos == ProbePosition(start, delta, ps[k].index)
            && ps[k].sh == capture(ps[k].pos))
  {
    LayoutShape(start, delta, d);
  }

  /** End to end: texel k of the uploaded data holds the coefficients captured at the world
      position of lattice slot k. */
  lemma LatticeTexels(start: Vec3, delta: Vec3, d: Dims, capture: Vec3 -> SH)
    ensures var ps := Captured(Layout(start, delta, d), capture);
      AllInRange(ps, d) &&
      forall k :: 0 <= k < Count(d) ==> Packed(ps, d)[k] == capture(ProbePosition(start, delta, Unflatten(k, d)))
  {
    CapturedLayout(start, delta, d, capture);
    var ps := Captured(Layout(start, delta, d), capture);
    PackedLattice(ps, d);
  }

  // ---------------------------------------------------------------- cache file

  /** The file `saveIrradiance` writes: the lattice header, with num_probes = dx*dy*dz,
      then every probe in list order. */
  function SavedFile(start: Vec3, end: Vec3, d: Dims, delta: Vec3, ps: seq<Probe>): CacheFile
  {
    CacheFile(Header(start, end, d, delta, Count(d)), ps)
  }

  /** `probes.resize(n)`: keeps the first n probes and appends default ones up to n. */
  function Resized(ps: seq<Probe>, n: nat): (r: seq<Probe>)
    ensures |r| == n
    ensures forall i :: 0 <= i < n && i < |ps| ==> r[i] == ps[i]
    ensures forall i :: |ps| <= i < n ==> r[i] == DefaultProbe
  {
    seq(n, i requires 0 <= i < n => if i < |ps| then ps[i] else DefaultProbe)
  }

  /** Reading records over a probe list: as many records as the file holds, up to the
      list's length, overwrite its front. */
  function ReadOver(ps: seq<Probe>, records: seq<Probe>): seq<Probe>
  {
    seq(|ps|, i requires 0 <= i < |ps| => if i < |records| then records[i] else ps[i])
  }

  /** The probe list `readIrradiance` leaves, from the list it had and the file. */
  function LoadedProbes(current: seq<Probe>, f: CacheFile): seq<Probe>
  {
    ReadOver(Resized(current, f.header.numProbes), f.records)
  }

  /** The loaded list has num_probes entries: the file's records first, then whatever of
      the old list survived the resize, then default probes. */
  lemma LoadedProbesShape(current: seq<Probe>, f: CacheFile)
    ensures var r := LoadedProbes(current, f);
      && |r| == f.header.numProbes
      && (forall i :: 0 <= i < |r| && i < |f.records| ==> r[i] == f.records[i])
      && (forall i :: |f.records| <= i < |r| && i < |current| ==> r[i] == current[i])
      && (forall i :: |f.records| <= i < |r| && |current| <= i ==> r[i] == DefaultProbe)
  {
  }

  /** Reading back a saved lattice restores the list exactly, whatever list was there before. */
  lemma {:induction false} SaveLoadRoundTrip(current: seq<Probe>, start: Vec3, end: Vec3, d: Dims,
                                             delta: Vec3, ps: seq<Probe>)
    requires |ps| == Count(d)
    ensures var f := SavedFile(start, end, d, delta, ps);
      && f.header.start == start && f.header.end == end
      && f.header.dims == d && f.header.delta == delta
      && LoadedProbes(current, f) == ps
  {
    var f := SavedFile(start, end, d, delta, ps);
    var r := LoadedProbes(current, f);
    assert |r| == |ps|;
    forall i | 0 <= i < |ps|
      ensures r[i] == ps[i]
    {
    }
  }

  // ---------------------------------------------------------------- finding

  /** What a call returns: a value, or nothing defined (control reached the end of a
      value-returning function without a return). */
  datatype ReturnValue = Returned(value: bool) | Unspecified

  /** `readIrradiance` as written: false when the file cannot be opened; on success the
      function ends without a return statement. */
  function ReadResultAsWritten(fileOpened: bool): ReturnValue
  {
    if !fileOpened then Returned(false) else Unspecified
  }

  /** A successful read does not report success. */
  lemma ReadResultAsWrittenOnSuccess()
    ensures ReadResultAsWritten(true) != Returned(true)
  {
  }
}
