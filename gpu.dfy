/** The cameras the renderer substitutes and restores. camera.h is not part of
    this model: a camera keeps only its projection and its clip planes. */
module Cameras {

  datatype Projection =
    | Unconfigured
    | Perspective(aspect: real, near: real, far: real)
    | Orthographic(left: real, right: real, bottom: real, top: real, near: real, far: real)

  class Camera {
    var projection: Projection
    var nearPlane: real
    var farPlane: real

    constructor ()
      ensures projection == Unconfigured
    {
      projection := Unconfigured;
    }

    /** `setPerspective`; the field of view is not part of this model. */
    method SetPerspective(aspect: real, near: real, far: real)
      modifies this
      ensures projection == Perspective(aspect, near, far)
      ensures nearPlane == near && farPlane == far
    {
      projection := Perspective(aspect, near, far);
      nearPlane, farPlane := near, far;
    }

    method SetOrthographic(left: real, right: real, bottom: real, top: real, near: real, far: real)
      modifies this
      ensures projection == Orthographic(left, right, bottom, top, near, far)
      ensures nearPlane == near && farPlane == far
    {
      projection := Orthographic(left, right, bottom, top, near, far);
      nearPlane, farPlane := near, far;
    }

    /** `Camera::enable`: make this the current camera. */
    method Enable(active: ActiveCamera)
      modifies active`current
      ensures active.current == this
    {
      active.current := this;
    }
  }

  /** The static `Camera::current`. */
  class ActiveCamera {
    var current: Camera?

    constructor (c: Camera?)
      ensures current == c
    {
      current := c;
    }
  }
}

/** Render targets and textures the renderer owns, as opaque handles with their sizes. */
module Gpu {
  import opened Values

  /** A frame buffer object with `colorTargets` colour attachments. */
  class Fbo {
    const width: nat
    const height: nat
    const colorTargets: nat

    constructor (w: nat, h: nat, n: nat)
      ensures width == w && height == h && colorTargets == n
    {
      width, height, colorTargets := w, h, n;
    }
  }

  /** A 2D texture holding spherical-harmonics texels, one row per probe. */
  class ProbeTexture {
    const columns: nat
    const rows: nat
    var texels: seq<SH>

    constructor (c: nat, r: nat)
      ensures columns == c && rows == r && texels == []
    {
      columns, rows := c, r;
      texels := [];
    }

    /** `Texture::upload`: the texture now holds `data`. */
    method Upload(data: seq<SH>)
      modifies this`texels
      ensures texels == data
    {
      texels := data;
    }
  }

  /** A depth texture (the decal pass's copy of the G-buffer depth). */
  class DepthTexture {
    const width: nat
    const height: nat

    constructor (w: nat, h: nat)
      ensures width == w && height == h
    {
      width, height := w, h;
    }
  }
}
