/** A scene light (Light.h, Light.cpp): its type, its parameters, its own
    shadow-casting camera and its lazily created shadow target. */
module Lights {
  import opened Values
  import opened Ids
  import opened Cameras
  import opened Gpu

  /** `enum LightType { OMNI, SPOT, DIRECTIONAL }`. */
  datatype LightType = Omni | Spot | Directional

  /** Ids of a list of lights, in list order. */
  function LightIds(ls: seq<Light>): (r: seq<u32>)
    reads ls
    ensures |r| == |ls| && forall i :: 0 <= i < |ls| ==> r[i] == ls[i].id
  {
    if |ls| == 0 then [] else LightIds(ls[..|ls| - 1]) + [ls[|ls| - 1].id]
  }

  /** The id the next light takes: the id rule applied to the scene's light ids.
      While those ids are consecutive, it is the number of lights (modulo 2^32). */
  function NextLightId(sceneLights: seq<Light>): (r: u32)
    reads sceneLights
    ensures Consecutive(LightIds(sceneLights)) ==> r == |sceneLights| % U32
  {
    var ids := LightIds(sceneLights);
    NextIdIsCount(ids); NextId(ids)
  }

  class Light {
    // BaseEntity part
    var id: u32
    var kind: EntityKind
    var visible: bool
    // private fields with setters and getters
    var color: Vec3
    var intensity: real
    var lightType: LightType
    var spotCosineAngle: real
    var spotExponent: real
    var yaw: real
    var pitch: real
    var maxDist: real
    // public fields
    var cfar: real
    var cnear: real
    var frustrum: real
    var camera: Camera
    var shadowFbo: Fbo?
    var shadowBias: real

    /** `Light(colour, position, rotation, type, intensity, fbo_w, fbo_h)`, with the
        scene's light list passed in place of the scene singleton. The position goes
        into the model matrix and the frame-buffer size is unused. */
    constructor (sceneLights: seq<Light>, colour: Vec3, position: Vec3, rotation: Vec2,
                 t: LightType, i: real, fboW: int, fboH: int)
      ensures id == NextLightId(sceneLights)
      ensures kind == LightKind && visible
      ensures color == colour && lightType == t && intensity == i
      ensures yaw == rotation.x && pitch == rotation.y
      ensures shadowFbo == null && fresh(camera)
      ensures shadowBias == 0.02 && spotCosineAngle == 0.0
      ensures cfar == 1000.0 && cnear == 5.0 && maxDist == 1000.0
      ensures frustrum == 1000.0 && spotExponent == 3.0
    {
      kind := LightKind;
      id := NextLightId(sceneLights);
      visible := true;
      color := colour;
      lightType := t;
      intensity := i;
      yaw := rotation.x;
      pitch := rotation.y;
      shadowFbo := null;
      camera := new Camera();
      shadowBias := 0.02;
      spotCosineAngle := 0.0;
      cfar := 1000.0;
      cnear := 5.0;
      maxDist := 1000.0;
      frustrum := 1000.0;
      spotExponent := 3.0;
    }

    function GetColor(): Vec3 reads this { color }

    function GetType(): LightType reads this { lightType }

    function GetIntensity(): real reads this { intensity }

    function GetMaxDist(): real reads this { maxDist }

    function GetCamera(): Camera reads this { camera }

    function GetSpotAngle(): real reads this { spotCosineAngle }

    function GetSpotExponent(): real reads this { spotExponent }

    method SetColor(c: Vec3)
      modifies this`color
      ensures GetColor() == c
    {
      color := c;
    }

    method SetIntensity(i: real)
      modifies this`intensity
      ensures GetIntensity() == i
    {
      intensity := i;
    }

    method SetMaxDist(md: real)
      modifies this`maxDist
      ensures GetMaxDist() == md
    {
      maxDist := md;
    }

    method SetSpotAngle(a: real)
      modifies this`spotCosineAngle
      ensures GetSpotAngle() == a
    {
      spotCosineAngle := a;
    }

    method SetSpotExponent(e: real)
      modifies this`spotExponent
      ensures GetSpotExponent() == e
    {
      spotExponent := e;
    }

    /** Sets the clip planes on both the light and its camera. */
    method SetNearFar(nearP: real, farP: real)
      modifies this`cnear, this`cfar, camera`nearPlane, camera`farPlane
      ensures cnear == nearP && cfar == farP
      ensures camera.nearPlane == nearP && camera.farPlane == farP
    {
      camera.farPlane := farP;
      camera.nearPlane := nearP;
      cfar := farP;
      cnear := nearP;
    }

    method SetBias(b: real)
      modifies this`shadowBias
      ensures shadowBias == b
    {
      shadowBias := b;
    }
  }
}
