/** The output trace: every GPU draw or pass the renderer issues becomes one event. */
module Events {
  import opened Values
  import opened Ids
  import opened Assets

  /** Which emissive texture a draw binds. */
  datatype EmissiveSource = MaterialEmissive | WhiteEmissive | BlackEmissive

  /** The emissive texture and factor a draw binds. The forward shader receives the
      factor's length; the vector stands for it. */
  datatype Emissive = Emissive(source: EmissiveSource, factor: Vec3)

  const NoEmission: Emissive := Emissive(BlackEmissive, Zero3)

  /** The irradiance texture a full-screen light pass samples. */
  datatype Irradiance = GBufferIrradiance | BlackIrradiance

  /** The cubemap used for environment reflections. */
  datatype Environment = SkyboxEnvironment | ProbeEnvironment(probe: nat)

  datatype Event =
    /** One forward draw of `mesh` lit by light number `light` of the scene list. */
    | ForwardDraw(mesh: Mesh, light: nat, ambient: real, emissive: Emissive,
                  blend: bool, typeCode: nat, shadowMap: bool)
    /** One G-buffer draw of `mesh`. */
    | GeometryDraw(mesh: Mesh, alphaCutoff: real, emissive: Emissive, probesTexture: bool)
    /** The shadow target of the light with this id is bound and cleared. */
    | ShadowTargetBound(lightId: u32)
    /** One depth-only draw into the bound shadow target. */
    | ShadowDraw(mesh: Mesh)
    /** One full-screen deferred pass for a spot or directional light. */
    | FullScreenLight(light: nat, ambient: real, irradiance: Irradiance,
                      blend: bool, typeCode: nat, shadowMap: bool)
    /** One light-volume sphere for an omni light. */
    | LightVolume(light: nat, ambient: real, blend: bool, typeCode: nat)
    | ClearTarget
    | SkyboxDraw
    | GBufferCleared
    | DecalDraw
    | OcclusionDraw
    | ShowGBuffers
    | ShowProbesTexture
    | ReflectionsDraw(environment: Environment)
    | ShowOcclusion
    | VolumetricDraw
    | BloomBlur(iteration: nat)
    | BloomComposite
    | Present(toneMapped: bool)
    | ReflectionProbeMarker(probe: nat)
    | IrradianceProbeMarker(probe: nat)
}

/** Which light passes a frame issues, in which order and with which ambient,
    emissive, irradiance and blending choices: the loops over the light list in
    `renderMeshWithMaterial` and in the deferred lighting resolve. */
module LightSchedule {
  import opened Values
  import opened Assets
  import opened Lights
  import opened Events

  /** What the light loops read of a light. */
  datatype LightRecord = LightRecord(lightType: LightType, visible: bool, hasShadowTarget: bool)

  function Record(l: Light): LightRecord
    reads l`lightType, l`visible, l`shadowFbo
  {
    LightRecord(l.lightType, l.visible, l.shadowFbo != null)
  }

  /** The snapshot of the light list the loops iterate over, one record per light. */
  function Records(ls: seq<Light>): seq<LightRecord>
    reads ls
  {
    seq(|ls|, i requires 0 <= i < |ls| reads ls => Record(ls[i]))
  }

  /** The `u_light_type` code the shaders expect; it is not the enum's ordinal. */
  function TypeCode(t: LightType): nat
  {
    match t
    case Directional => 0
    case Omni => 1
    case Spot => 2
  }

  predicate Visible(r: LightRecord) { r.visible }

  predicate VisibleSpotOrDirectional(r: LightRecord) { r.visible && r.lightType != Omni }

  predicate VisibleOmni(r: LightRecord) { r.visible && r.lightType == Omni }

  /** Positions of the lights satisfying p, in list order. */
  function Selected(ls: seq<LightRecord>, p: LightRecord -> bool): (r: seq<nat>)
    ensures |r| <= |ls|
    ensures forall k :: 0 <= k < |r| ==> r[k] < |ls|
  {
    if |ls| == 0 then []
    else Selected(ls[..|ls| - 1], p) + (if p(ls[|ls| - 1]) then [|ls| - 1] else [])
  }

  /** Selected lists exactly the positions satisfying p, strictly increasing. */
  lemma {:induction false} SelectedSpec(ls: seq<LightRecord>, p: LightRecord -> bool)
    ensures forall i :: i in Selected(ls, p) <==> 0 <= i < |ls| && p(ls[i])
    ensures forall a, b :: 0 <= a < b < |Selected(ls, p)| ==> Selected(ls, p)[a] < Selected(ls, p)[b]
  {
    if |ls| > 0 {
      var init := ls[..|ls| - 1];
      SelectedSpec(init, p);
      forall i | 0 <= i < |init|
        ensures init[i] == ls[i]
      {
      }
    }
  }

  /** Extending the list by one light extends the selection by at most that position. */
  lemma SelectedStep(ls: seq<LightRecord>, i: nat, p: LightRecord -> bool)
    requires i < |ls|
    ensures Selected(ls[..i + 1], p) == Selected(ls[..i], p) + (if p(ls[i]) then [i] else [])
  {
    assert ls[..i + 1][..i] == ls[..i];
  }

  // ---------------------------------------------------------------- forward pass

  /** The emissive binding of the first lit draw: the material's texture, else a white
      texture when the factor is non-zero, else black. */
  function FirstEmissive(m: Material): Emissive
  {
    if m.emissiveTexture.Some? then Emissive(MaterialEmissive, m.emissiveFactor)
    else if m.emissiveFactor != Zero3 then Emissive(WhiteEmissive, m.emissiveFactor)
    else Emissive(BlackEmissive, Zero3)
  }

  /** The forward draw lighting `mesh` with light i; `first` says whether it is the first drawn light. */
  function ForwardDrawFor(mesh: Mesh, m: Material, r: LightRecord, i: nat, first: bool, ambient: real): Event
  {
    ForwardDraw(mesh, i,
                if first then ambient else 0.0,
                if first then FirstEmissive(m) else NoEmission,
                !first, TypeCode(r.lightType), r.hasShadowTarget)
  }

  /** Reference schedule of one forward mesh draw: one draw per visible light, in list order. */
  function ForwardSchedule(mesh: Mesh, m: Material, ls: seq<LightRecord>, ambient: real): seq<Event>
  {
    var vis := Selected(ls, Visible);
    seq(|vis|, k requires 0 <= k < |vis| => ForwardDrawFor(mesh, m, ls[vis[k]], vis[k], k == 0, ambient))
  }

  lemma ForwardScheduleStep(mesh: Mesh, m: Material, ls: seq<LightRecord>, i: nat, ambient: real)
    requires i < |ls|
    ensures ForwardSchedule(mesh, m, ls[..i + 1], ambient) ==
      ForwardSchedule(mesh, m, ls[..i], ambient) +
      (if ls[i].visible
       then [ForwardDrawFor(mesh, m, ls[i], i, |Selected(ls[..i], Visible)| == 0, ambient)]
       else [])
  {
    SelectedStep(ls, i, Visible);
  }

  /** The forward pass issues one draw per visible light, in list order. */
  lemma {:induction false} ForwardScheduleLights(mesh: Mesh, m: Material, ls: seq<LightRecord>, ambient: real)
    ensures var s := ForwardSchedule(mesh, m, ls, ambient);
      && (forall k :: 0 <= k < |s| ==> s[k].ForwardDraw? && s[k].light < |ls| && ls[s[k].light].visible)
      && (forall i :: 0 <= i < |ls| && ls[i].visible ==> exists k :: 0 <= k < |s| && s[k].light == i)
      && (forall a, b :: 0 <= a < b < |s| ==> s[a].light < s[b].light)
  {
    var vis := Selected(ls, Visible);
    SelectedSpec(ls, Visible);
    var s := ForwardSchedule(mesh, m, ls, ambient);
    forall i | 0 <= i < |ls| && ls[i].visible
      ensures exists k :: 0 <= k < |s| && s[k].light == i
    {
      assert i in vis;
      var k :| 0 <= k < |vis| && vis[k] == i;
      assert s[k].light == i;
    }
  }

  /** Each forward draw uses the mesh and its light's type code; only the first carries the
      scene ambient and the material emission, unblended; every later one has ambient 0,
      black emission and blending on. */
  lemma {:induction false} ForwardScheduleFields(mesh: Mesh, m: Material, ls: seq<LightRecord>, ambient: real)
    ensures var s := ForwardSchedule(mesh, m, ls, ambient);
      && (forall k :: 0 <= k < |s| ==>
            && s[k].ForwardDraw? && s[k].light < |ls| && s[k].mesh == mesh
            && s[k].typeCode == TypeCode(ls[s[k].light].lightType)
            && s[k].shadowMap == ls[s[k].light].hasShadowTarget
            && s[k].blend == (k > 0)
            && (k == 0 ==> s[k].ambient == ambient && s[k].emissive == FirstEmissive(m))
            && (k > 0 ==> s[k].ambient == 0.0 && s[k].emissive == NoEmission))
  {
    var vis := Selected(ls, Visible);
    assert forall k :: 0 <= k < |vis| ==> vis[k] < |ls|;
  }

  // ---------------------------------------------------------------- deferred resolve
  /** The full-screen pass of the k-th visible spot or directional light (light i). */
  function FullScreenFor(r: LightRecord, i: nat, first: bool, ambient: real): Event
  {
    FullScreenLight(i, if first then ambient else 0.0,
                    if first then GBufferIrradiance else BlackIrradiance,
                    !first, TypeCode(r.lightType), r.hasShadowTarget)
  }

  /** First resolve group: one full-screen pass per visible spot or directional light. */
  function FullScreenSchedule(ls: seq<LightRecord>, ambient: real): seq<Event>
  {
    var sd := Selected(ls, VisibleSpotOrDirectional);
    seq(|sd|, k requires 0 <= k < |sd| => FullScreenFor(ls[sd[k]], sd[k], k == 0, ambient))
  }

  /** Second resolve group: one light volume per visible omni light, blended as the
      first group left the blend state. */
  function VolumeSchedule(ls: seq<LightRecord>, blend: bool): seq<Event>
  {
    var om := Selected(ls, VisibleOmni);
    seq(|om|, k requires 0 <= k < |om| => LightVolume(om[k], 0.0, blend, 1))
  }

  /** Reference schedule of the lighting resolve: the first group, then the light volumes,
      which are blended iff the first group drew anything. */
  function ResolveSchedule(ls: seq<LightRecord>, ambient: real): seq<Event>
  {
    FullScreenSchedule(ls, ambient)
      + VolumeSchedule(ls, |Selected(ls, VisibleSpotOrDirectional)| > 0)
  }

  lemma FullScreenScheduleStep(ls: seq<LightRecord>, i: nat, ambient: real)
    requires i < |ls|
    ensures FullScreenSchedule(ls[..i + 1], ambient) ==
      FullScreenSchedule(ls[..i], ambient) +
      (if VisibleSpotOrDirectional(ls[i])
       then [FullScreenFor(ls[i], i, |Selected(ls[..i], VisibleSpotOrDirectional)| == 0, ambient)]
       else [])
  {
    SelectedStep(ls, i, VisibleSpotOrDirectional);
  }

  lemma VolumeScheduleStep(ls: seq<LightRecord>, i: nat, blend: bool)
    requires i < |ls|
    ensures VolumeSchedule(ls[..i + 1], blend) ==
      VolumeSchedule(ls[..i], blend) + (if VisibleOmni(ls[i]) then [LightVolume(i, 0.0, blend, 1)] else [])
  {
    SelectedStep(ls, i, VisibleOmni);
  }

  /** The first group is exactly the visible spot and directional lights, in list order,
      with the shader's type code and only the first pass unblended, carrying the ambient
      and the G-buffer irradiance. */
  lemma {:induction false} FullScreenScheduleShape(ls: seq<LightRecord>, ambient: real)
    ensures var s := FullScreenSchedule(ls, ambient);
      && (forall k :: 0 <= k < |s| ==>
            (s[k].FullScreenLight? && s[k].light < |ls| && VisibleSpotOrDirectional(ls[s[k].light])
             && s[k].typeCode == TypeCode(ls[s[k].light].lightType)
             && s[k].shadowMap == ls[s[k].light].hasShadowTarget))
      && (forall i :: 0 <= i < |ls| && VisibleSpotOrDirectional(ls[i]) ==>
            exists k :: 0 <= k < |s| && s[k].light == i)
      && (forall a, b :: 0 <= a < b < |s| ==> s[a].light < s[b].light)
      && (forall k :: 0 <= k < |s| ==> s[k].blend == (k > 0))
      && (|s| > 0 ==> s[0].ambient == ambient && s[0].irradiance == GBufferIrradiance)
      && (forall k :: 0 < k < |s| ==> s[k].ambient == 0.0 && s[k].irradiance == BlackIrradiance)
  {
    var sd := Selected(ls, VisibleSpotOrDirectional);
    SelectedSpec(ls, VisibleSpotOrDirectional);
    var s := FullScreenSchedule(ls, ambient);
    forall k | 0 <= k < |s|
      ensures s[k] == FullScreenFor(ls[sd[k]], sd[k], k == 0, ambient)
      ensures sd[k] < |ls| && VisibleSpotOrDirectional(ls[sd[k]])
    {
      assert sd[k] in sd;
    }
    forall i | 0 <= i < |ls| && VisibleSpotOrDirectional(ls[i])
      ensures exists k :: 0 <= k < |s| && s[k].light == i
    {
      assert i in sd;
      var k :| 0 <= k < |sd| && sd[k] == i;
      assert s[k].light == i;
    }
  }

  /** The second group is exactly the visible omni lights, in list order, type code 1
      and no ambient. */
  lemma {:induction false} VolumeScheduleShape(ls: seq<LightRecord>, blend: bool)
    ensures var s := VolumeSchedule(ls, blend);
      && (forall k :: 0 <= k < |s| ==>
            (s[k].LightVolume? && s[k].light < |ls| && VisibleOmni(ls[s[k].light])
             && s[k].ambient == 0.0 && s[k].typeCode == 1 && s[k].blend == blend))
      && (forall i :: 0 <= i < |ls| && VisibleOmni(ls[i]) ==> exists k :: 0 <= k < |s| && s[k].light == i)
      && (forall a, b :: 0 <= a < b < |s| ==> s[a].light < s[b].light)
  {
    var om := Selected(ls, VisibleOmni);
    SelectedSpec(ls, VisibleOmni);
    var s := VolumeSchedule(ls, blend);
    forall i | 0 <= i < |ls| && VisibleOmni(ls[i])
      ensures exists k :: 0 <= k < |s| && s[k].light == i
    {
      assert i in om;
      var k :| 0 <= k < |om| && om[k] == i;
      assert s[k].light == i;
    }
  }

  /** Every visible light is drawn exactly by its group, all full-screen passes precede all
      light volumes, the volumes are blended iff some full-screen pass came before them,
      and without a visible spot or directional light no pass carries the ambient. */
  lemma {:induction false} ResolveScheduleShape(ls: seq<LightRecord>, ambient: real)
    ensures var s := ResolveSchedule(ls, ambient);
      var n := |FullScreenSchedule(ls, ambient)|;
      && n <= |s|
      && (forall k :: 0 <= k < n ==> s[k].FullScreenLight?)
      && (forall k :: n <= k < |s| ==> s[k].LightVolume? && s[k].blend == (n > 0))
      && (forall i :: 0 <= i < |ls| && ls[i].visible ==> exists k :: 0 <= k < |s| && s[k].light == i)
      && (forall k :: 0 <= k < |s| && (k > 0 || n == 0) ==> s[k].ambient == 0.0)
  {
    var f := FullScreenSchedule(ls, ambient);
    var v := VolumeSchedule(ls, |f| > 0);
    FullScreenScheduleShape(ls, ambient);
    VolumeScheduleShape(ls, |f| > 0);
    ResolveCovers(ls, f, v);
  }

  /** Each visible light is in one of the two groups, so the resolve reaches it. */
  lemma ResolveCovers(ls: seq<LightRecord>, f: seq<Event>, v: seq<Event>)
    requires forall k :: 0 <= k < |f| ==> f[k].FullScreenLight?
    requires forall k :: 0 <= k < |v| ==> v[k].LightVolume?
    requires forall i :: 0 <= i < |ls| && VisibleSpotOrDirectional(ls[i]) ==>
      exists k :: 0 <= k < |f| && f[k].light == i
    requires forall i :: 0 <= i < |ls| && VisibleOmni(ls[i]) ==> exists k :: 0 <= k < |v| && v[k].light == i
    ensures forall i :: 0 <= i < |ls| && ls[i].visible ==> exists k :: 0 <= k < |f + v| && (f + v)[k].light == i
  {
    var s := f + v;
    forall i | 0 <= i < |ls| && ls[i].visible
      ensures exists k :: 0 <= k < |s| && s[k].light == i
    {
      if ls[i].lightType == Omni {
        assert VisibleOmni(ls[i]);
        var k :| 0 <= k < |v| && v[k].light == i;
        assert s[|f| + k] == v[k];
      } else {
        assert VisibleSpotOrDirectional(ls[i]);
        var k :| 0 <= k < |f| && f[k].light == i;
        assert s[k] == f[k];
      }
    }
  }
}
